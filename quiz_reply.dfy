/**
 * Cleaning of the model's quiz reply before it is decoded as JSON
 * (app.py, lines 136-141): the reply is stripped; a "```json" fence wins
 * over a bare "```" fence; the text inside the chosen fence is stripped again.
 */
module QuizReply {
  import opened PyStr

  const Fence: string := "```"
  const JsonFence: string := "```json"

  /** The text handed to the JSON decoder for a raw quiz reply: it never
      contains a fence and is already stripped. */
  function CleanQuizReply(reply: string): (text: string)
    ensures !Contains(text, Fence)
    ensures Strip(text) == text
  {
    var t := Strip(reply);
    if Contains(t, JsonFence) then
      var piece := Split(Split(t, JsonFence)[1], Fence)[0];
      NoFenceAfterStrip(piece);
      Strip(piece)
    else if Contains(t, Fence) then
      var piece := Split(Split(t, Fence)[1], Fence)[0];
      NoFenceAfterStrip(piece);
      Strip(piece)
    else
      StripIdempotent(reply);
      t
  }

  /** Stripping a string that holds no fence cannot create one, and the
      stripped string is stable under another strip. */
  lemma NoFenceAfterStrip(s: string)
    requires !Contains(s, Fence)
    ensures !Contains(Strip(s), Fence)
    ensures Strip(Strip(s)) == Strip(s)
  {
    StripKeepsAbsent(s, Fence);
    StripIdempotent(s);
  }

  /** Every occurrence of "```json" is an occurrence of "```". */
  lemma JsonFenceIsFence(s: string, k: int)
    requires OccursAt(s, JsonFence, k)
    ensures OccursAt(s, Fence, k)
  {
    assert s[k..k + 3] == s[k..k + 7][..3];
  }

  /** A reply without any fence is decoded exactly as stripped. */
  lemma UnfencedReplyIsStripped(reply: string)
    requires !Contains(Strip(reply), Fence)
    ensures CleanQuizReply(reply) == Strip(reply)
  {
    var t := Strip(reply);
    if Contains(t, JsonFence) {
      JsonFenceIsFence(t, Find(t, JsonFence).value);
      assert false;
    }
  }

  /** With a "```json" fence present, the cleaned text is the stripped first
      piece, cut at "```", of what follows the first "```json". */
  lemma CleanWithJsonFence(reply: string, piece: string)
    requires Contains(Strip(reply), JsonFence) && Split(Strip(reply), JsonFence)[1] == piece
    ensures CleanQuizReply(reply) == Strip(Split(piece, Fence)[0])
  {
  }

  /** With a "```json" fence present, the cleaned text comes from after the
      first "```json", whatever bare fences occur before it; unless a run of
      four backticks directly precedes a later "json", it is the stripped text
      up to the next "```" (or to the end). */
  lemma JsonFenceTakesPriority(reply: string)
    requires Contains(Strip(reply), JsonFence)
    ensures var t := Strip(reply);
            var body := t[Find(t, JsonFence).value + |JsonFence|..];
            !Contains(body, "````json") ==> CleanQuizReply(reply) == Strip(Split(body, Fence)[0])
  {
    var t := Strip(reply);
    var body := t[Find(t, JsonFence).value + |JsonFence|..];
    SplitSecond(t, JsonFence);
    if !Contains(body, "````json") {
      UpToJsonFenceThenFence(body);
    }
  }

  /** Cutting at the next "```json" and then at the next "```" is the same as
      cutting at the next "```", provided "````json" does not occur. */
  lemma UpToJsonFenceThenFence(body: string)
    requires !Contains(body, "````json")
    ensures Split(Split(body, JsonFence)[0], Fence)[0] == Split(body, Fence)[0]
  {
    var head := Split(body, JsonFence)[0];
    match Find(body, Fence)
    case None =>
      if Contains(body, JsonFence) {
        JsonFenceIsFence(body, Find(body, JsonFence).value);
        assert false;
      }
    case Some(q) =>
      match Find(body, JsonFence)
      case None =>
        assert head == body;
      case Some(k) =>
        JsonFenceIsFence(body, k);
        assert head == body[..k];
        if k == q {
          PrefixBeforeFirst(body, Fence);
        } else {
          if k < q + 3 {
            FourBackticks(body, q, k);
          }
          assert body[..k][q..q + 3] == body[q..q + 3];
          assert OccursAt(head, Fence, q);
          assert forall j :: 0 <= j < q ==> !OccursAt(body, Fence, j);
          forall j | 0 <= j < q
            ensures !OccursAt(head, Fence, j)
          {
            if OccursAt(head, Fence, j) {
              assert body[0..k] == head;
              OccursInSlice(body, Fence, 0, k, j);
            }
          }
          assert head[..q] == body[..q];
        }
  }

  /** A "```" that overlaps a later "```json" makes "````json" occur. */
  lemma FourBackticks(body: string, q: nat, k: nat)
    requires OccursAt(body, Fence, q) && OccursAt(body, JsonFence, k)
    requires q < k < q + 3
    ensures Contains(body, "````json")
  {
    assert body[k - 1] == '`';
    assert body[k - 1..k + 7] == "````json";
    assert OccursAt(body, "````json", k - 1);
  }

  /** Without a "```json" fence, the cleaned text is the stripped text between
      the first and the second bare fence (or to the end). */
  lemma BareFenceBody(reply: string)
    requires !Contains(Strip(reply), JsonFence) && Contains(Strip(reply), Fence)
    ensures var t := Strip(reply);
            CleanQuizReply(reply) == Strip(Split(t[Find(t, Fence).value + |Fence|..], Fence)[0])
  {
    var t := Strip(reply);
    SplitSecond(t, Fence);
    SplitHeadOfPiece(Split(t, Fence)[1], Fence);
  }

  /** Cleaning an already cleaned text changes nothing. */
  lemma CleanIdempotent(reply: string)
    ensures CleanQuizReply(CleanQuizReply(reply)) == CleanQuizReply(reply)
  {
    UnfencedReplyIsStripped(CleanQuizReply(reply));
  }
}
