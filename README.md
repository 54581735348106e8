# AI Tutor: a Dafny model of its session logic

The AI Tutor is a single Streamlit script, `app.py`. A learner enters a topic.
The generative model writes an explanation and a five-question multiple-choice
quiz. The learner answers and submits the quiz, sees a score, and can then ask
follow-up questions by typing or by voice. Each answer is read aloud.

This project models the parts of the script that are logic rather than layout:

- `PyStr` (`py_str.dfy`): the Python `str` operations the script relies on. These are `strip()`
  (with Python's whitespace set), `in` and `split(sep)`. `Join` (Python's `sep.join`) is
  added as the inverse of `split` and to assemble the prompt templates.
- `QuizReply` (`quiz_reply.dfy`, `quiz_reply_examples.dfy`): how the model's quiz reply
  is cleaned before JSON decoding. The reply is stripped. A "```json" fence wins over a
  bare "```". The text inside the chosen fence is stripped again.
- `Grading` (`grading.dfy`): the per-question verdicts and the score `sum(1 for i, a in
  user_answers.items() if a == mcqs[i]['correct_answer'])`.
- `Prompts` (`prompts.dfy`): the two lesson prompts and the chat prompt. The chat prompt
  holds the tutor header, then the entries `chat_history[-6:-1]`, then the question.
  It is built by a loop, as in the script.
- `TutorSession` (`session.dfy`): `st.session_state` and its seven keys. Each key is a
  value, with `None` written as `Option.None`.
  - A `Session` snapshot has one `After...` function per action: generate a lesson,
    record the answers, submit, ask the tutor, play the pending audio, clear the chat,
    try another topic.
  - The class `SessionState` performs the same actions by assigning its fields in the
    script's order. Each method is proved to leave exactly the state its function
    describes.

The remote calls are parameters of the actions:

- The generative model is a function `string -> Option<string>` from prompt to reply,
  where `None` means the call raised.
- `json.loads` is `string -> Option<seq<Question>>`.
- Text-to-speech is `string -> Option<string>`.

The `After...` functions are therefore exact. The lemmas beside them state what the
script promises, including what it does that a reader might not expect:

- Generation is not atomic.
- A failed chat call leaves the question in the history.
- Reset writes `None` rather than the initial values.
- Recognised speech replaces typed text.
- A topic of blanks is accepted.

## Model

| member | source | states |
|---|---|---|
| `PyStr.Strip` | app.py:136 | `s.strip()` is the slice of `s` between its leading and trailing whitespace (Python's `isspace` set); it is empty or starts and ends with a non-space |
| `PyStr.StripIdempotent` | app.py:136-141 | stripping an already stripped text changes nothing |
| `PyStr.Find` | app.py:138-141 | the first index where the pattern occurs, and no occurrence before it; `None` exactly when it occurs nowhere |
| `PyStr.Split` | app.py:139-141 | `s.split(sep)` has at least one piece, two or more exactly when `sep in s`, the first piece is the text before the first `sep`, and no piece contains `sep` |
| `PyStr.SplitSecond` | app.py:139-141 | `s.split(sep)[1]` is the text after the first `sep` up to the next `sep`, or to the end of `s` when no further `sep` follows |
| `PyStr.JoinSplit` | app.py:139-141 | `sep.join(s.split(sep)) == s`: splitting loses nothing |
| `QuizReply.CleanQuizReply` | app.py:136-141 | the text handed to `json.loads` never contains "```" and is already stripped |
| `QuizReply.UnfencedReplyIsStripped` | app.py:136-143 | with no "```" in the stripped reply, the text handed to `json.loads` is exactly the stripped reply |
| `QuizReply.JsonFenceTakesPriority` | app.py:138-139 | when "```json" occurs, the result comes from after its first occurrence, whatever bare fences precede it, and is the stripped text up to the next "```" |
| `QuizReply.BareFenceBody` | app.py:140-141 | without "```json", the result is the stripped text between the first and second "```" (or to the end) |
| `QuizReply.CleanIdempotent` | app.py:136-141 | cleaning a cleaned text changes nothing |
| `QuizReplyExamples.FencedArrayExample` | app.py:136-139 | "```json\n[]\n```" is cleaned to "[]" |
| `QuizReplyExamples.OverlappingFenceExample` | app.py:138-139 | "```json x ````json" is cleaned to "x `": the first split cuts at the second "```json", which the four backticks hide from the bare-fence split |
| `Grading.Score` | app.py:193-195 | the score (the number of answered indices whose answer is that question's `correct_answer`) equals the number of questions marked "Correct!" at line 180 and never exceeds `len(mcqs)` |
| `Grading.CountTrue` | app.py:193-194 | the number of true verdicts never exceeds the number of questions |
| `Grading.FullScore` | app.py:180-195 | full marks exactly when every question is answered with its correct option |
| `Grading.GradingExample` | app.py:180-195 | answers 2 and 1 to questions whose keys are 2 and 0 are marked correct, incorrect and score 1 |
| `Prompts.ExplanationPrompt` | app.py:114-115 | the explanation request is its fixed opening, the topic, then its fixed closing text |
| `Prompts.QuizPrompt` | app.py:122-133 | the quiz request is its fixed opening, the topic, then the format lines, each on a new line with the script's sixteen-space indentation |
| `Prompts.RecentWindow` | app.py:230 | `chat_history[-6:-1]` is `history[max(n-6,0)..n-1]`, empty for an empty history, at most five entries |
| `Prompts.Context` | app.py:228-231 | the accumulated context is the header (role, topic, explanation) followed by one line per entry, oldest first |
| `Prompts.ChatPrompt` | app.py:228-232 | the chat prompt is the header, the lines of `history[max(n-6,0)..n-1]` in order (none for an empty history), then the question trailer |
| `Prompts.WindowExcludesLatest` | app.py:224-230 | right after a message is appended, the window is the last (at most five) earlier entries and never that message |
| `Prompts.PromptCarriesRecentTurns` | app.py:224-232 | the prompt for a just-appended question is the header, the lines of the last five earlier entries in order, then the question |
| `Prompts.BuildChatPrompt` | app.py:228-232 | the loop that appends one line per window entry yields the chat prompt |
| `TutorSession.InitialIsConsistent` | app.py:23-36 | the first-run state is consistent, shows no quiz and offers no reset |
| `TutorSession.GenerateRefusesOnlyEmptyTopic` | app.py:110-154 | only the empty topic is refused (a topic of blanks is not), and it changes nothing |
| `TutorSession.GenerateSuccess` | app.py:113-148 | generation succeeds exactly when both calls and the decoding succeed, and then stores topic, explanation, quiz, `submitted = False`, `{}`, `[]` and keeps the audio |
| `TutorSession.GenerateFailureIsPartial` | app.py:117-152 | a failed generation keeps quiz, flag, answers, chat and audio, but the explanation and topic are already new once the explanation call succeeded |
| `TutorSession.FailedQuizKeepsNewExplanation` | app.py:117-152 | a quiz call that fails after a new explanation still changes the session: there is no rollback |
| `TutorSession.GenerateKeepsConsistent` | app.py:109-154 | generation keeps explanation and topic together and a shown quiz with its flag, answers and history |
| `TutorSession.RecordReplacesAnswers` | app.py:167-177 | after recording, the answers are exactly the current choices, one per question |
| `TutorSession.SubmitShowsScore` | app.py:179-195 | submitting sets only the flag and the button is gone; the score is then shown exactly when every wrongly answered question's `correct_answer` indexes its options (line 183), and otherwise neither the score, the chat nor the reset button is drawn |
| `TutorSession.ShownScore` | app.py:193-195 | the score shown is the number of correct verdicts and at most the number of questions |
| `TutorSession.OutOfRangeKeyStopsRun` | app.py:179-183 | a submitted one-question quiz with four options, key 7 and answer 0 shows no score, no chat and no reset button |
| `TutorSession.ResolveQuestion` | app.py:215-219 | the question is the typed text or the recognised text; non-empty recognised text always replaces the typed text, and speech never blanks a typed question |
| `TutorSession.SpeechOverridesTyping` | app.py:215-221 | a voice click starts a turn (line 221) with the recognised text when there is some, and with the typed text when nothing was recognised |
| `TutorSession.AskBlankIsNoOp` | app.py:222-243 | a blank or whitespace-only question only warns and changes nothing |
| `TutorSession.AskTurn` | app.py:222-241 | the question is appended before the call and stays if it raises; an answer adds exactly a second entry and becomes the pending audio; the model sees the header, the last five earlier entries and the question |
| `TutorSession.AskKeepsConsistent` | app.py:221-243 | a chat turn keeps the session consistent |
| `TutorSession.PlayAudioConsumes` | app.py:245-247 | pending audio is played once and then cleared; nothing else changes |
| `TutorSession.ClearChatOnlyEmptiesHistory` | app.py:249-252 | clearing the chat sets only the history to `[]`, and the button is then gone |
| `TutorSession.ClearKeysSets` | app.py:258-259 | after setting a list of keys to `None`, every listed key is `None` and every other key keeps its value |
| `TutorSession.AfterReset` | app.py:257-259 | reset sets the six listed keys to `None` and keeps the pending audio |
| `TutorSession.ResetClearsSixKeys` | app.py:257-259 | the reset state differs from the first-run state of lines 23-36 (`None` where those were `False`, `{}`, `[]`), is consistent, and shows neither quiz nor reset button |
| `TutorSession.SessionState.constructor` | app.py:23-36 | the first run sets every key to its initial value |
| `TutorSession.SessionState.StoreExplanation` | app.py:118-119 | stores the explanation and the topic and changes nothing else |
| `TutorSession.SessionState.StartQuiz` | app.py:143-146 | stores the quiz, clears the flag to `False`, the answers to `{}` and the history to `[]`, and changes nothing else |
| `TutorSession.SessionState.GenerateLesson` | app.py:109-154 | the fields are assigned in the script's order and end as the generation function says, with the same message |
| `TutorSession.SessionState.RecordAnswers` | app.py:167-177 | the loop `user_answers[idx] = answer` leaves the answers merged with the choices |
| `TutorSession.SessionState.SubmitQuiz` | app.py:188-191 | sets the flag to true |
| `TutorSession.SessionState.Ask` | app.py:221-243 | appends, builds the prompt by the loop, calls the model and appends the answer, as the turn function says |
| `TutorSession.SessionState.PlayAudio` | app.py:245-247 | clears the pending audio after it is played |
| `TutorSession.SessionState.ClearChat` | app.py:249-252 | empties the history |
| `TutorSession.SessionState.SetNone` | app.py:259 | `st.session_state[key] = None` for one key |
| `TutorSession.SessionState.Reset` | app.py:257-259 | the loop over the six keys leaves the reset state |

## Left out

- Streamlit rendering, widgets, spinners, `st.rerun` and the rerun-on-interaction execution model. Each action is one call on the session; within one run, the quiz section records the answers before the submit button is read.
- The Gemini client, its configuration and the secrets: the model is a function parameter returning `None` for a call that raises (including a reply whose `.text` raises). The model is deterministic per prompt in this model; nothing depends on that.
- `json.loads`: a parameter returning the decoded question list or `None`. A reply that decodes to some other JSON value (not a list of question records) is not modelled, nor are key errors on malformed records.
- Microphone capture, the temporary WAV file and Google speech recognition: the recognised text is an `Option<string>` input of `ResolveQuestion`.
- Edge TTS streaming, base64 and the audio HTML: a parameter returning the HTML or `None`.
- `st.radio` over a question with no options returns `None`; the model records an integer choice for every question.
- Nothing enforces five questions, four options or an in-range `correct_answer`, and the model adds no such check. An out-of-range key is modelled only where line 183 evaluates it: the rest of that run is not drawn.
- `TutorSession.SessionState.RecordAnswers`: requires one choice per question of the shown quiz, which the radio loop always supplies.
- `QuizReply.JsonFenceTakesPriority`: stated only for bodies without "````json"; when four backticks directly precede a later "json", the first split cuts at that "```json" and keeps one backtick (`QuizReplyExamples.OverlappingFenceExample`).
