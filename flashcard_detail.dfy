/** The detail screen of one card, reached with the card's id as a route parameter (app/flashcard-detail.tsx). */
module FlashcardDetail {
  import opened Wrappers
  import Text
  import Http
  import opened FlashcardUtils
  import opened CardDisplay
  import Api

  /** `f.id.toString() === id`. */
  predicate HasRouteId(card: Flashcard, id: string) {
    Text.IntToDecimal(card.id) == id
  }

  /** `r` is the first card of `cards` with the route id, or `None` when there is none. */
  ghost predicate IsFirstMatch(cards: seq<Flashcard>, id: string, r: Option<Flashcard>) {
    && (r.None? <==> forall k :: 0 <= k < |cards| ==> !HasRouteId(cards[k], id))
    && (r.Some? ==> exists k :: 0 <= k < |cards| && cards[k] == r.value && HasRouteId(cards[k], id)
                               && forall j :: 0 <= j < k ==> !HasRouteId(cards[j], id))
  }

  /** A first match in the tail is a first match in the whole list when the head does not match. */
  lemma FirstMatchOfTail(cards: seq<Flashcard>, id: string, r: Option<Flashcard>)
    requires cards != [] && !HasRouteId(cards[0], id)
    requires IsFirstMatch(cards[1..], id, r)
    ensures IsFirstMatch(cards, id, r)
  {
    var tail := cards[1..];
    if r.Some? {
      var k :| 0 <= k < |tail| && tail[k] == r.value && HasRouteId(tail[k], id)
               && forall j :: 0 <= j < k ==> !HasRouteId(tail[j], id);
      assert cards[k + 1] == r.value;
      forall j | 0 <= j < k + 1 ensures !HasRouteId(cards[j], id) {
        if j > 0 {
          assert cards[j] == tail[j - 1];
        }
      }
    } else {
      forall k | 0 <= k < |cards| ensures !HasRouteId(cards[k], id) {
        if k > 0 {
          assert cards[k] == tail[k - 1];
        }
      }
    }
  }

  /** `flashcards.find(...)`: the first card whose id, rendered in decimal, is the route id. */
  function FindById(cards: seq<Flashcard>, id: string): (r: Option<Flashcard>)
    ensures IsFirstMatch(cards, id, r)
  {
    if cards == [] then None
    else if HasRouteId(cards[0], id) then
      assert cards[0] == cards[0];
      Some(cards[0])
    else
      var r := FindById(cards[1..], id);
      FirstMatchOfTail(cards, id, r);
      r
  }

  /** Looking a card up by its id rendered in decimal finds a card with exactly that id whenever one exists. */
  lemma FindByRenderedId(cards: seq<Flashcard>, n: int)
    ensures FindById(cards, Text.IntToDecimal(n)).Some? <==> exists k :: 0 <= k < |cards| && cards[k].id == n
    ensures FindById(cards, Text.IntToDecimal(n)).Some? ==> FindById(cards, Text.IntToDecimal(n)).value.id == n
  {
    var r := FindById(cards, Text.IntToDecimal(n));
    forall k | 0 <= k < |cards| && HasRouteId(cards[k], Text.IntToDecimal(n)) ensures cards[k].id == n {
      Text.DecimalInjective(cards[k].id, n);
    }
  }

  /** A route id that is not in canonical decimal form ("007", "+7") never selects a card. */
  lemma NonCanonicalIdNeverMatches(cards: seq<Flashcard>, id: string, n: int)
    requires Text.ParseInteger(id) == Some(n) && id != Text.IntToDecimal(n)
    ensures FindById(cards, id) == None
  {
    forall k | 0 <= k < |cards| ensures !HasRouteId(cards[k], id) {
      if HasRouteId(cards[k], id) {
        Text.DecimalRoundTrip(cards[k].id);
      }
    }
  }

  /** The detail screen's inline colour rule: anything but the two lower levels is `error`. */
  function DetailColor(level: JsValue): (c: Colour)
    ensures c == Success <==> level == Str("BEGINNER")
    ensures c == Warning <==> level == Str("INTERMEDIATE")
    ensures c == Error <==> level != Str("BEGINNER") && level != Str("INTERMEDIATE")
  {
    if level == Str("BEGINNER") then Success
    else if level == Str("INTERMEDIATE") then Warning
    else Error
  }

  /** The detail screen and the two components disagree exactly on levels outside the known three. */
  lemma DetailColorDiffersOffScale(level: JsValue)
    ensures DetailColor(level) != DifficultyColor(level) <==> !IsKnownLevel(level)
    ensures !IsKnownLevel(level) ==> DetailColor(level) == Error && DifficultyColor(level) == TextSecondary
  {
  }

  /** What the screen renders. */
  datatype DetailView =
    | Spinner
    | NotFound(message: string)
    | CardView(
        badge: Colour,
        difficulty: JsValue,
        category: Option<string>,
        question: string,
        toggleLabel: string,
        toggleIcon: string,
        answer: Option<string>,
        tags: seq<string>,
        exampleCode: Option<JsValue>,
        language: Option<string>)

  /** The rendering for a given state of the screen. */
  function ViewOf(loading: bool, flashcard: Option<Flashcard>, showAnswer: bool): (v: DetailView)
    ensures loading <==> v == Spinner
    ensures !loading && flashcard.None? <==> v == NotFound("Flashcard not found")
    ensures v.CardView? ==>
      var card := flashcard.value;
      && v.badge == DetailColor(card.difficultyLevel) && v.difficulty == card.difficultyLevel
      && (v.category.Some? <==> card.category != "")
      && (v.category.Some? ==> v.category.value == card.category)
      && v.question == card.frontContent
      && (v.answer.Some? <==> showAnswer)
      && (v.answer.Some? ==> v.answer.value == card.backContent)
      && v.toggleLabel == (if showAnswer then "Hide Answer" else "Show Answer")
      && v.toggleIcon == (if showAnswer then "eye-off" else "eye")
      && v.tags == ParseTags(card.tags)
      && (v.exampleCode.Some? <==> Truthy(card.exampleCode))
      && (v.exampleCode.Some? ==> v.exampleCode.value == card.exampleCode)
      && (v.language.Some? <==> card.language != "")
      && (v.language.Some? ==> v.language.value == card.language)
  {
    if loading then Spinner
    else if flashcard.None? then NotFound("Flashcard not found")
    else
      var card := flashcard.value;
      CardView(
        DetailColor(card.difficultyLevel),
        card.difficultyLevel,
        if card.category != "" then Some(card.category) else None,
        card.frontContent,
        if showAnswer then "Hide Answer" else "Show Answer",
        if showAnswer then "eye-off" else "eye",
        if showAnswer then Some(card.backContent) else None,
        ParseTags(card.tags),
        if Truthy(card.exampleCode) then Some(card.exampleCode) else None,
        if card.language != "" then Some(card.language) else None)
  }

  /** The state of `FlashcardDetailScreen` for the route id `routeId`. */
  class DetailScreen {
    const routeId: string
    var flashcard: Option<Flashcard>
    var loading: bool
    var showAnswer: bool

    /** The screen opens loading, with no card and the answer hidden. */
    constructor (id: string)
      ensures routeId == id
      ensures flashcard == None && loading && !showAnswer
    {
      routeId := id;
      flashcard := None;
      loading := true;
      showAnswer := false;
    }

    /**
     * `loadFlashcard`: fetches every card (a failed fetch gives none), selects
     * the first with the route id, and ends loading whatever the outcome.
     */
    method LoadFlashcard(reply: Http.Reply<seq<RawRecord>>)
      modifies this
      ensures !loading
      ensures flashcard == FindById(Api.ReadFlashcardList(reply), routeId)
      ensures showAnswer == old(showAnswer)
    {
      var flashcards := Api.ReadFlashcardList(reply);
      flashcard := FindById(flashcards, routeId);
      loading := false;
    }

    /** The answer button: shows the answer when hidden and hides it when shown. */
    method ToggleAnswer()
      modifies this
      ensures showAnswer == !old(showAnswer)
      ensures flashcard == old(flashcard) && loading == old(loading)
    {
      showAnswer := !showAnswer;
    }
  }
}
