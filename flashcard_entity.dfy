/**
 * The persistent flashcard record (entity/Flashcard.java): its columns, the
 * defaults a new instance starts with, its setters and the update hook.
 */
module FlashcardEntity {
  import opened Wrappers
  import opened Time

  /** Java's `int`. */
  newtype Int32 = x: int | -0x8000_0000 <= x < 0x8000_0000

  /** Java's `int` addition: the sum wrapped into the 32-bit range. */
  function AddInt32(a: Int32, b: Int32): (r: Int32)
    ensures -0x8000_0000 <= a as int + b as int < 0x8000_0000 ==> r as int == a as int + b as int
    ensures a as int + b as int >= 0x8000_0000 ==> r as int == a as int + b as int - 0x1_0000_0000
    ensures a as int + b as int < -0x8000_0000 ==> r as int == a as int + b as int + 0x1_0000_0000
  {
    ((a as int + b as int + 0x8000_0000) % 0x1_0000_0000 - 0x8000_0000) as Int32
  }

  /** Adding one to the largest `int` gives the smallest. */
  lemma IncrementWrapsAtMax()
    ensures AddInt32(0x7FFF_FFFF, 1) == -0x8000_0000
  {
  }

  /**
   * The values of one record. A Java `null` is `None`; `userId` is the owner's key
   * (the `user_id` join column).
   */
  datatype FlashcardRow = FlashcardRow(
    id: Option<int>,
    frontContent: Option<string>,
    backContent: Option<string>,
    category: Option<string>,
    difficultyLevel: Option<string>,
    language: Option<string>,
    exampleCode: Option<string>,
    tags: Option<string>,
    viewCount: Int32,
    masteryScore: Int32,
    createdAt: Option<Timestamp>,
    updatedAt: Option<Timestamp>,
    userId: Option<int>)

  /** The record of a freshly constructed instance, created at `now`. */
  function NewRow(now: Timestamp): (r: FlashcardRow)
    ensures r.language == Some("java") && r.viewCount == 0 && r.masteryScore == 0
    ensures r.createdAt == Some(now) && r.updatedAt == None
    ensures r.id == None && r.frontContent == None && r.backContent == None && r.category == None
    ensures r.difficultyLevel == None && r.exampleCode == None && r.tags == None && r.userId == None
  {
    FlashcardRow(None, None, None, None, None, Some("java"), None, None, 0, 0, Some(now), None, None)
  }

  /** The columns declared `nullable = false` hold a value, so the database accepts the record. */
  predicate Persistable(r: FlashcardRow) {
    && r.frontContent.Some? && r.backContent.Some? && r.category.Some?
    && r.difficultyLevel.Some? && r.language.Some? && r.createdAt.Some?
  }

  /** A `Flashcard` instance. */
  class Flashcard {
    var id: Option<int>
    var frontContent: Option<string>
    var backContent: Option<string>
    var category: Option<string>
    var difficultyLevel: Option<string>
    var language: Option<string>
    var exampleCode: Option<string>
    var tags: Option<string>
    var viewCount: Int32
    var masteryScore: Int32
    var createdAt: Option<Timestamp>
    var updatedAt: Option<Timestamp>
    var userId: Option<int>

    /** The instance's values as a record. */
    function Row(): FlashcardRow
      reads this
    {
      FlashcardRow(id, frontContent, backContent, category, difficultyLevel, language, exampleCode,
                   tags, viewCount, masteryScore, createdAt, updatedAt, userId)
    }

    /** `new Flashcard()`: the field defaults, created at `now`, not yet updated. */
    constructor (now: Timestamp)
      ensures Row() == NewRow(now)
    {
      id := None;
      frontContent := None;
      backContent := None;
      category := None;
      difficultyLevel := None;
      language := Some("java");
      exampleCode := None;
      tags := None;
      viewCount := 0;
      masteryScore := 0;
      createdAt := Some(now);
      updatedAt := None;
      userId := None;
    }

    /** The four-argument constructor: the content fields over the defaults. */
    constructor WithContent(front: Option<string>, back: Option<string>, cat: Option<string>,
                            level: Option<string>, now: Timestamp)
      ensures Row() == NewRow(now).(frontContent := front, backContent := back, category := cat,
                                    difficultyLevel := level)
    {
      id := None;
      frontContent := front;
      backContent := back;
      category := cat;
      difficultyLevel := level;
      language := Some("java");
      exampleCode := None;
      tags := None;
      viewCount := 0;
      masteryScore := 0;
      createdAt := Some(now);
      updatedAt := None;
      userId := None;
    }

    method SetId(v: Option<int>)
      modifies this
      ensures Row() == old(Row()).(id := v)
    {
      id := v;
    }

    method SetFrontContent(v: Option<string>)
      modifies this
      ensures Row() == old(Row()).(frontContent := v)
    {
      frontContent := v;
    }

    method SetBackContent(v: Option<string>)
      modifies this
      ensures Row() == old(Row()).(backContent := v)
    {
      backContent := v;
    }

    method SetCategory(v: Option<string>)
      modifies this
      ensures Row() == old(Row()).(category := v)
    {
      category := v;
    }

    method SetDifficultyLevel(v: Option<string>)
      modifies this
      ensures Row() == old(Row()).(difficultyLevel := v)
    {
      difficultyLevel := v;
    }

    method SetLanguage(v: Option<string>)
      modifies this
      ensures Row() == old(Row()).(language := v)
    {
      language := v;
    }

    method SetExampleCode(v: Option<string>)
      modifies this
      ensures Row() == old(Row()).(exampleCode := v)
    {
      exampleCode := v;
    }

    method SetTags(v: Option<string>)
      modifies this
      ensures Row() == old(Row()).(tags := v)
    {
      tags := v;
    }

    method SetViewCount(v: Int32)
      modifies this
      ensures Row() == old(Row()).(viewCount := v)
    {
      viewCount := v;
    }

    method SetMasteryScore(v: Int32)
      modifies this
      ensures Row() == old(Row()).(masteryScore := v)
    {
      masteryScore := v;
    }

    method SetCreatedAt(v: Option<Timestamp>)
      modifies this
      ensures Row() == old(Row()).(createdAt := v)
    {
      createdAt := v;
    }

    method SetUpdatedAt(v: Option<Timestamp>)
      modifies this
      ensures Row() == old(Row()).(updatedAt := v)
    {
      updatedAt := v;
    }

    method SetUserId(v: Option<int>)
      modifies this
      ensures Row() == old(Row()).(userId := v)
    {
      userId := v;
    }

    /** `onUpdate`, run before a changed record is written: stamps `updatedAt` and nothing else. */
    method OnUpdate(now: Timestamp)
      modifies this
      ensures Row() == old(Row()).(updatedAt := Some(now))
    {
      updatedAt := Some(now);
    }
  }
}
