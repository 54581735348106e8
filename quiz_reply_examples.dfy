/**
 * Two concrete replies and what the quiz-reply cleaning makes of them: the
 * usual fenced array, and a reply where four backticks directly precede a
 * later "json", so that the cut lands at that "```json" rather than at the
 * first "```". The small lemmas each fix one fact about one literal.
 */
module QuizReplyExamples {
  import opened PyStr
  import opened QuizReply

  lemma FencedStripped()
    ensures Strip("```json\n[]\n```") == "```json\n[]\n```"
  {
    StripUnchanged("```json\n[]\n```");
  }

  lemma FencedReply()
    ensures Contains("```json\n[]\n```", JsonFence)
    ensures Split("```json\n[]\n```", JsonFence)[1] == Split("\n[]\n```", JsonFence)[0]
  {
    var t := "```json\n[]\n```";
    assert OccursAt(t, JsonFence, 0);
    SplitAtFirst(t, JsonFence, 0);
    assert t[7..] == "\n[]\n```";
  }

  lemma FencedPiece()
    ensures Split("\n[]\n```", JsonFence)[0] == "\n[]\n```"
    ensures Split("\n[]\n```", Fence)[0] == "\n[]\n"
  {
    var piece := "\n[]\n```";
    assert piece[0..7][0] == '\n';
    assert !Contains(piece, JsonFence);
    SplitHeadOfPiece(piece, JsonFence);
    assert OccursAt(piece, Fence, 4);
    forall j | 0 <= j < 4
      ensures !OccursAt(piece, Fence, j)
    {
      assert piece[j..j + 3][0] == piece[j];
    }
    SplitAtFirst(piece, Fence, 4);
  }

  lemma FencedStrip()
    ensures Strip("\n[]\n") == "[]"
  {
    assert LeftEnd("\n[]\n") == 1;
    assert "\n[]\n"[1..] == "[]\n";
    assert RightEnd("[]\n") == 2;
  }

  /** A fenced, newline-padded JSON array reaches the decoder as the bare array. */
  lemma FencedArrayExample()
    ensures CleanQuizReply("```json\n[]\n```") == "[]"
  {
    FencedStripped();
    FencedReply();
    FencedPiece();
    FencedStrip();
    CleanWithJsonFence("```json\n[]\n```", "\n[]\n```");
  }

  lemma OverlapStripped()
    ensures Strip("```json x ````json") == "```json x ````json"
  {
    StripUnchanged("```json x ````json");
  }

  lemma OverlapReply()
    ensures Contains("```json x ````json", JsonFence)
    ensures Split("```json x ````json", JsonFence)[1] == Split(" x ````json", JsonFence)[0]
  {
    var t := "```json x ````json";
    assert OccursAt(t, JsonFence, 0);
    SplitAtFirst(t, JsonFence, 0);
    assert t[7..] == " x ````json";
  }

  lemma OverlapPiece()
    ensures Split(" x ````json", JsonFence)[0] == " x `"
    ensures Split(" x `", Fence)[0] == " x `"
  {
    var body := " x ````json";
    assert OccursAt(body, JsonFence, 4);
    forall j | 0 <= j < 4
      ensures !OccursAt(body, JsonFence, j)
    {
      assert body[j..j + 7][0] == body[j] && body[j..j + 7][3] == body[j + 3];
    }
    SplitAtFirst(body, JsonFence, 4);
    var piece := " x `";
    assert piece[0..3][0] == ' ' && piece[1..4][0] == 'x';
    assert !Contains(piece, Fence);
    SplitHeadOfPiece(piece, Fence);
  }

  lemma OverlapStrip()
    ensures Strip(" x `") == "x `"
  {
    assert LeftEnd(" x `") == 1;
    assert " x `"[1..] == "x `";
    StripUnchanged("x `");
  }

  /** When "````json" follows the first "```json", the cut is made at the
      later "```json", so a lone backtick survives; the text before the next
      "```" would have been "x". */
  lemma OverlappingFenceExample()
    ensures CleanQuizReply("```json x ````json") == "x `"
  {
    OverlapStripped();
    OverlapReply();
    OverlapPiece();
    OverlapStrip();
    CleanWithJsonFence("```json x ````json", " x `");
  }
}
