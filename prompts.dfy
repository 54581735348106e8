/**
 * The prompts sent to the generative model (app.py, lines 114-133 and 228-232):
 * the two lesson prompts, and the chat prompt built from the topic, the
 * explanation, a window of recent chat entries and the question.
 */
module Prompts {
  import opened Wrappers
  import PyStr

  datatype Role = User | Assistant

  /** One chat entry, `{'role': ..., 'content': ...}`. */
  datatype Message = Message(role: Role, content: string)

  /** The role as it is spelled in the chat history. */
  function RoleName(r: Role): string {
    match r
    case User => "user"
    case Assistant => "assistant"
  }

  /** What a Python f-string shows for an optional text: `None` when absent. */
  function Show(v: Option<string>): string {
    match v
    case None => "None"
    case Some(s) => s
  }

  const Indent16: string := "                "

  /** An f-string with a single field used once: its literal parts, joined by
      the field's value. */
  function FillTopic(template: seq<string>, topic: string): string {
    PyStr.Join(topic, template)
  }

  /** The literal parts of the explanation request (lines 114-115). */
  const ExplanationTemplate: seq<string> := [
    "Explain the topic '",
    "' clearly and comprehensively for learners.\n"
    + Indent16 + "Include examples and keep it around 300-400 words, using markdown formatting."]

  /** The line break and indentation that separate the lines of the quiz
      request inside the script's triple-quoted f-string. */
  const QuizLineBreak: string := "\n" + Indent16

  /** The lines of the quiz request after the topic (lines 123-133); the
      doubled braces of the f-string stand for single ones. */
  const QuizFormatLines: seq<string> := [
    "', generate exactly 5 multiple choice questions (MCQs).",
    "Return only a JSON array in this format:",
    "[",
    "    {",
    "        \"question\": \"Question text here?\",",
    "        \"options\": [\"A\", \"B\", \"C\", \"D\"],",
    "        \"correct_answer\": 0,",
    "        \"explanation\": \"Reason for correctness\"",
    "    }",
    "]",
    ""]

  /** The literal parts of the quiz request (lines 122-133), around the topic. */
  const QuizTemplate: seq<string> := [
    QuizLineBreak + "Based on the topic '",
    PyStr.Join(QuizLineBreak, QuizFormatLines)]

  /** The explanation request: its opening text, the topic, its closing text. */
  function ExplanationPrompt(topic: string): (prompt: string)
    ensures prompt == ExplanationTemplate[0] + topic + ExplanationTemplate[1]
  {
    JoinTwo(topic, ExplanationTemplate);
    FillTopic(ExplanationTemplate, topic)
  }

  /** The quiz request: its opening text, the topic, then the format lines. */
  function QuizPrompt(topic: string): (prompt: string)
    ensures prompt == QuizTemplate[0] + topic + PyStr.Join(QuizLineBreak, QuizFormatLines)
  {
    JoinTwo(topic, QuizTemplate);
    FillTopic(QuizTemplate, topic)
  }

  /** Joining two parts puts the separator once, between them. */
  lemma JoinTwo(sep: string, parts: seq<string>)
    requires |parts| == 2
    ensures PyStr.Join(sep, parts) == parts[0] + sep + parts[1]
  {
    assert parts[1..] == [parts[1]];
  }

  /** A Python slice bound `i` on a sequence of length `n`, after negative
      indices count from the end and out-of-range ones are clamped. */
  function SliceBound(i: int, n: nat): (b: nat)
    ensures b <= n
    ensures 0 <= i ==> b == if i <= n then i else n
    ensures i < 0 ==> b == if -i <= n then n + i else 0
  {
    if i < 0 then (if i + n < 0 then 0 else i + n)
    else if i > n then n
    else i
  }

  /** Python's `s[start:stop]`. */
  function PySlice<T>(s: seq<T>, start: int, stop: int): seq<T> {
    var lo, hi := SliceBound(start, |s|), SliceBound(stop, |s|);
    if lo < hi then s[lo..hi] else []
  }

  function Max(a: int, b: int): int { if a < b then b else a }

  /** `chat_history[-6:-1]`: the entries from the sixth-last up to, but not
      including, the last one. */
  function RecentWindow(history: seq<Message>): (w: seq<Message>)
    ensures |history| == 0 ==> w == []
    ensures |history| > 0 ==> w == history[Max(|history| - 6, 0)..|history| - 1]
    ensures |w| <= 5
  {
    PySlice(history, -6, -1)
  }

  /** Right after a message is appended, the window holds at most the five
      entries before it, in order, and never the message itself. */
  lemma WindowExcludesLatest(prior: seq<Message>, latest: Message)
    ensures RecentWindow(prior + [latest]) == prior[Max(|prior| - 5, 0)..]
    ensures |RecentWindow(prior + [latest])| == if |prior| < 5 then |prior| else 5
  {
    var h := prior + [latest];
    assert h[Max(|h| - 6, 0)..|h| - 1] == prior[Max(|prior| - 5, 0)..];
  }

  /** One line of the chat context: `role: content`. */
  function Line(m: Message): string {
    RoleName(m.role) + ": " + m.content + "\n"
  }

  /** The lines of the given entries, oldest first. */
  function Transcript(ms: seq<Message>): string {
    if ms == [] then "" else Transcript(ms[..|ms| - 1]) + Line(ms[|ms| - 1])
  }

  /** The first part of the chat context: the tutor role and the topic. */
  function TopicLine(topic: Option<string>): string {
    "You are an AI tutor. Topic: " + Show(topic) + ".\n\n"
  }

  /** The second part of the chat context: the stored explanation. */
  function ExplanationBlock(explanation: Option<string>): string {
    "Explanation:\n" + Show(explanation) + "\n\n"
  }

  /** The fixed opening of the chat prompt: tutor role, topic, explanation. */
  function ContextHeader(topic: Option<string>, explanation: Option<string>): string {
    TopicLine(topic) + ExplanationBlock(explanation)
  }

  /** The closing of the chat prompt, carrying the question. */
  function QuestionTrailer(question: string): string {
    "\nStudent's question: " + question + "\nGive a clear, helpful answer."
  }

  /** Associativity of string concatenation, stated on its own so that the
      induction step of `Context` need not derive it among the prompt texts. */
  lemma AppendAssoc(a: string, b: string, c: string)
    ensures (a + b) + c == a + (b + c)
  {
  }

  /** The chat context as the tutor accumulates it: the header, then one line
      per entry, oldest first. */
  function Context(topic: Option<string>, explanation: Option<string>, ms: seq<Message>): (context: string)
    ensures context == ContextHeader(topic, explanation) + Transcript(ms)
  {
    if ms == [] then
      assert ContextHeader(topic, explanation) + "" == ContextHeader(topic, explanation);
      ContextHeader(topic, explanation)
    else
      var init, last := ms[..|ms| - 1], Line(ms[|ms| - 1]);
      AppendAssoc(ContextHeader(topic, explanation), Transcript(init), last);
      Context(topic, explanation, init) + last
  }

  /** The chat prompt: the context over `chat_history[-6:-1]`, then the question.
      For a non-empty history that is the header, the lines of the entries from
      the sixth-last up to but not including the last, and the question. */
  function ChatPrompt(topic: Option<string>, explanation: Option<string>, history: seq<Message>, question: string): (prompt: string)
    ensures |history| == 0 ==> prompt == ContextHeader(topic, explanation) + QuestionTrailer(question)
    ensures |history| > 0 ==>
              prompt == ContextHeader(topic, explanation)
                        + Transcript(history[Max(|history| - 6, 0)..|history| - 1]) + QuestionTrailer(question)
  {
    Context(topic, explanation, RecentWindow(history)) + QuestionTrailer(question)
  }

  /** The chat prompt for a question just appended to `prior`: the header, the
      lines of the last (at most five) earlier entries in order, and not the
      new entry, then the question. */
  lemma PromptCarriesRecentTurns(topic: Option<string>, explanation: Option<string>, prior: seq<Message>, question: string)
    ensures ChatPrompt(topic, explanation, prior + [Message(User, question)], question)
         == ContextHeader(topic, explanation) + Transcript(prior[Max(|prior| - 5, 0)..]) + QuestionTrailer(question)
  {
    WindowExcludesLatest(prior, Message(User, question));
  }

  /** Builds the chat prompt as the tutor does: start from the header and
      append one line per entry of `chat_history[-6:-1]`. */
  method BuildChatPrompt(topic: Option<string>, explanation: Option<string>, history: seq<Message>, question: string)
    returns (prompt: string)
    ensures prompt == ChatPrompt(topic, explanation, history, question)
  {
    var context := TopicLine(topic);
    context := context + ExplanationBlock(explanation);
    assert context == Context(topic, explanation, []);
    var window := RecentWindow(history);
    for i := 0 to |window|
      invariant context == Context(topic, explanation, window[..i])
    {
      assert window[..i + 1][..i] == window[..i];
      assert Context(topic, explanation, window[..i + 1]) == Context(topic, explanation, window[..i]) + Line(window[i]);
      context := context + Line(window[i]);
    }
    assert window[..|window|] == window;
    prompt := context + QuestionTrailer(question);
  }
}
