/** The two-sided study card (components/FlashcardFlip.tsx). */
module FlashcardFlip {
  import opened Wrappers
  import opened FlashcardUtils
  import opened CardDisplay

  /** The rotation, in degrees, a flip animates towards from the current side. */
  function FlipTarget(isFlipped: bool): (deg: int)
    ensures deg == 180 <==> !isFlipped
    ensures deg == 0 <==> isFlipped
  {
    if isFlipped then 0 else 180
  }

  /** The flip button: its caption and its icon. */
  datatype FlipButton = FlipButton(caption: string, icon: string)

  /** The flip button for the current side. */
  function ButtonFor(isFlipped: bool): (b: FlipButton)
    ensures !isFlipped ==> b == FlipButton("Show Answer", "eye")
    ensures isFlipped ==> b == FlipButton("Show Question", "eye-off")
  {
    if isFlipped then FlipButton("Show Question", "eye-off") else FlipButton("Show Answer", "eye")
  }

  /** The button announces the side the next flip turns to: the answer side sits at 180 degrees. */
  lemma ButtonMatchesAnimation(isFlipped: bool)
    ensures ButtonFor(isFlipped).caption == "Show Answer" <==> FlipTarget(isFlipped) == 180
    ensures ButtonFor(isFlipped).caption == "Show Question" <==> FlipTarget(isFlipped) == 0
  {
  }

  /** Whether the previous/next controls are rendered; an absent prop means `true`. */
  function ShowsNavigation(showNavigation: Option<bool>): (shown: bool)
    ensures shown <==> showNavigation != Some(false)
  {
    showNavigation.GetOr(true)
  }

  /**
   * The two sides of the card. `badge` is the raw difficulty text both sides show;
   * `category` is `None` when the category row is not rendered.
   */
  datatype Faces = Faces(
    border: Colour,
    badge: JsValue,
    question: string,
    answer: string,
    category: Option<string>,
    tags: seq<string>)

  /** The content of both sides. */
  function FacesOf(card: Flashcard): (f: Faces)
    ensures f.border == DifficultyColor(card.difficultyLevel) && f.badge == card.difficultyLevel
    ensures f.question == QuestionText(card) && f.answer == AnswerText(card)
    ensures f.category.Some? <==> card.category != ""
    ensures f.category.Some? ==> f.category.value == card.category
    ensures f.tags == ParseTags(card.tags)
  {
    Faces(
      DifficultyColor(card.difficultyLevel),
      card.difficultyLevel,
      QuestionText(card),
      AnswerText(card),
      if card.category != "" then Some(card.category) else None,
      ParseTags(card.tags))
  }

  /** The `isFlipped` state of one card. */
  class FlipCard {
    var isFlipped: bool

    /** A card starts on its question side. */
    constructor ()
      ensures !isFlipped
    {
      isFlipped := false;
    }

    /**
     * `flipCard`: starts the animation towards the other side and turns the card
     * over, so two flips restore the original side.
     */
    method Flip() returns (toValue: int)
      modifies this
      ensures isFlipped == !old(isFlipped)
      ensures toValue == FlipTarget(old(isFlipped))
      ensures toValue == (if isFlipped then 180 else 0)
    {
      toValue := if isFlipped then 0 else 180;
      isFlipped := !isFlipped;
    }
  }
}
