/**
 * The derived queries of the flashcard repository
 * (repository/FlashcardRepository.java) over the stored table, keyed by id.
 */
module FlashcardRepository {
  import opened Wrappers
  import Text
  import opened FlashcardEntity

  /** The `flashcards` table: each stored record under its primary key. */
  type Table = map<int, FlashcardRow>

  /** `r` holds some of `t`'s records, each unchanged and under its own key. */
  predicate IsSubTable(r: Table, t: Table) {
    forall id :: id in r ==> id in t && r[id] == t[id]
  }

  /** `findByDifficultyLevel`: the records whose level equals `level`. */
  function FindByDifficultyLevel(t: Table, level: string): (r: Table)
    ensures IsSubTable(r, t)
    ensures forall id :: id in t ==> (id in r <==> t[id].difficultyLevel == Some(level))
  {
    map id | id in t && t[id].difficultyLevel == Some(level) :: t[id]
  }

  /** `findByCategory`: the records whose category equals `category`. */
  function FindByCategory(t: Table, category: string): (r: Table)
    ensures IsSubTable(r, t)
    ensures forall id :: id in t ==> (id in r <==> t[id].category == Some(category))
  {
    map id | id in t && t[id].category == Some(category) :: t[id]
  }

  /** `findByLanguage`: the records whose language equals `language`. */
  function FindByLanguage(t: Table, language: string): (r: Table)
    ensures IsSubTable(r, t)
    ensures forall id :: id in t ==> (id in r <==> t[id].language == Some(language))
  {
    map id | id in t && t[id].language == Some(language) :: t[id]
  }

  /** `findByDifficultyLevelAndCategory`: both columns equal. */
  function FindByDifficultyLevelAndCategory(t: Table, level: string, category: string): Table {
    map id | id in t && t[id].difficultyLevel == Some(level) && t[id].category == Some(category) :: t[id]
  }

  /** The combined query is the intersection of the two single-column queries. */
  lemma AndIsIntersection(t: Table, level: string, category: string)
    ensures IsSubTable(FindByDifficultyLevelAndCategory(t, level, category), t)
    ensures FindByDifficultyLevelAndCategory(t, level, category).Keys
            == FindByDifficultyLevel(t, level).Keys * FindByCategory(t, category).Keys
  {
  }

  /**
   * `findByTag`: `LOWER(tags) LIKE LOWER('%' || tag || '%')`, a case-insensitive
   * substring test on the whole tags text; a NULL `tags` never matches.
   */
  function FindByTag(t: Table, tag: string): (r: Table)
    ensures IsSubTable(r, t)
    ensures forall id :: id in t ==>
              (id in r <==> t[id].tags.Some? && Text.Contains(Text.Lower(t[id].tags.value), Text.Lower(tag)))
  {
    map id | id in t && t[id].tags.Some? && Text.Contains(Text.Lower(t[id].tags.value), Text.Lower(tag)) :: t[id]
  }

  /** Two tags that differ only in ASCII case find the same records. */
  lemma FindByTagIgnoresCase(t: Table, a: string, b: string)
    requires Text.Lower(a) == Text.Lower(b)
    ensures FindByTag(t, a) == FindByTag(t, b)
  {
  }

  /** The empty tag finds every record whose tags are not NULL. */
  lemma FindByTagEmpty(t: Table)
    ensures forall id :: id in t ==> (id in FindByTag(t, "") <==> t[id].tags.Some?)
  {
    forall id | id in t && t[id].tags.Some?
      ensures Text.Contains(Text.Lower(t[id].tags.value), "")
    {
      assert Text.OccursAt(Text.Lower(t[id].tags.value), "", 0);
      Text.ContainsIffOccurrence(Text.Lower(t[id].tags.value), "");
    }
  }

  /**
   * The tag is matched as a substring of the tags text, not as a whole entry of
   * the list: a record whose tags contain the argument anywhere, even inside a
   * longer tag ("java" inside "javascript"), is found.
   */
  lemma TagMatchIsSubstring(t: Table, id: int, before: string, tag: string, after: string)
    requires id in t && t[id].tags == Some(before + tag + after)
    ensures id in FindByTag(t, tag)
  {
    var low := Text.Lower(before + tag + after);
    Text.LowerConcat(before + tag, after);
    Text.LowerConcat(before, tag);
    assert low[|before|..|before| + |tag|] == Text.Lower(tag);
    assert Text.OccursAt(low, Text.Lower(tag), |before|);
    Text.ContainsIffOccurrence(low, Text.Lower(tag));
  }

  /**
   * `findAllCategories`: `SELECT DISTINCT f.category`, a value (or NULL) once per
   * distinct category in use. The query has no ORDER BY, so it is a set here.
   */
  function FindAllCategories(t: Table): (r: set<Option<string>>)
    ensures forall c :: c in r <==> exists id :: id in t && t[id].category == c
  {
    set id | id in t :: t[id].category
  }

  /** `findAllDifficultyLevels`: each distinct level in use, once. */
  function FindAllDifficultyLevels(t: Table): (r: set<Option<string>>)
    ensures forall d :: d in r <==> exists id :: id in t && t[id].difficultyLevel == d
  {
    set id | id in t :: t[id].difficultyLevel
  }

  /** Every category in use has at least one record that `findByCategory` returns. */
  lemma ListedCategoriesAreFound(t: Table, c: string)
    requires Some(c) in FindAllCategories(t)
    ensures FindByCategory(t, c) != map[]
  {
    var id :| id in t && t[id].category == Some(c);
    assert id in FindByCategory(t, c);
  }
}
