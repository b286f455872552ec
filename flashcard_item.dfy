/** The list entry of one card (components/FlashcardItem.tsx). */
module FlashcardItem {
  import opened Wrappers
  import Text
  import opened FlashcardUtils
  import opened CardDisplay

  /** How many tags the list entry shows before summarising the rest. */
  const PreviewSize: nat := 3

  /** The tags shown and, when some are hidden, how many. */
  datatype TagPreview = TagPreview(shown: seq<string>, hidden: Option<nat>)

  /** `tags.slice(0, 3)` and the count behind "+N more". */
  function PreviewTags(tags: seq<string>): (p: TagPreview)
    ensures p.shown <= tags && |p.shown| <= PreviewSize
    ensures |tags| <= PreviewSize ==> p.shown == tags
    ensures p.hidden.Some? <==> |tags| > PreviewSize
    ensures |p.shown| + p.hidden.GetOr(0) == |tags|
  {
    if |tags| > PreviewSize then TagPreview(tags[..PreviewSize], Some(|tags| - PreviewSize))
    else TagPreview(tags, None)
  }

  /** The text of the summary: "+N more". */
  function MoreLabel(n: nat): (caption: string)
    ensures Text.StartsWith(caption, "+") && |caption| > 6
    ensures Text.ParseInteger(caption[1..|caption| - 5]) == Some(n)
    ensures caption[|caption| - 5..] == " more"
  {
    var caption := "+" + Text.IntToDecimal(n) + " more";
    assert caption[1..|caption| - 5] == Text.IntToDecimal(n);
    assert caption[|caption| - 5..] == " more";
    Text.DecimalRoundTrip(n);
    caption
  }

  /** What the list entry renders. `tags` is `None` when the tag row is not rendered. */
  datatype ItemView = ItemView(
    question: string,
    badge: Colour,
    difficulty: JsValue,
    category: Option<string>,
    tags: Option<TagPreview>,
    more: Option<string>,
    answer: string)

  /** The tag row and its summary: rendered only for a non-empty tag list. */
  function TagRow(tags: seq<string>): (row: (Option<TagPreview>, Option<string>))
    ensures row.0.Some? <==> tags != []
    ensures row.0.Some? ==> row.0.value == PreviewTags(tags)
    ensures row.1.Some? <==> |tags| > PreviewSize
    ensures row.1.Some? ==> row.1.value == MoreLabel(|tags| - PreviewSize)
  {
    var preview := PreviewTags(tags);
    (if |tags| > 0 then Some(preview) else None,
     if preview.hidden.Some? then Some(MoreLabel(preview.hidden.value)) else None)
  }

  /** The rendering of `FlashcardItem`. */
  function Render(card: Flashcard): (v: ItemView)
    ensures v.question != "" && v.answer != ""
    ensures v.question == QuestionText(card) && v.answer == AnswerText(card)
    ensures v.badge == DifficultyColor(card.difficultyLevel) && v.difficulty == card.difficultyLevel
    ensures v.category.Some? <==> card.category != ""
    ensures v.category.Some? ==> v.category.value == card.category
    ensures v.tags.Some? <==> ParseTags(card.tags) != []
    ensures v.tags.Some? ==> v.tags.value == PreviewTags(ParseTags(card.tags))
    ensures v.more.Some? <==> |ParseTags(card.tags)| > PreviewSize
    ensures v.more.Some? ==> v.more.value == MoreLabel(|ParseTags(card.tags)| - PreviewSize)
  {
    var row := TagRow(ParseTags(card.tags));
    ItemView(
      QuestionText(card),
      DifficultyColor(card.difficultyLevel),
      card.difficultyLevel,
      if card.category != "" then Some(card.category) else None,
      row.0,
      row.1,
      AnswerText(card))
  }
}
