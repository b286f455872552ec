/**
 * The flashcard service (service/FlashcardService.java): reads, the
 * create/update/delete operations in one transaction each, the view counter and
 * the entity/DTO conversions. The table is the service's state; a loaded record
 * becomes a `Flashcard` instance that the setters change and that is written
 * back, stamped by the update hook only when some value changed.
 */
module FlashcardService {
  import opened Wrappers
  import opened Time
  import Text
  import opened ServiceErrors
  import opened FlashcardEntity
  import Dto = FlashCardDto
  import Repo = FlashcardRepository
  import Accounts = UserService

  /** The error a lookup of a missing id ends with. */
  function NotFound(id: int): (e: ServiceError)
    ensures e.ResourceNotFound? && Text.StartsWith(e.message, "Flashcard not found with id ")
    ensures Text.ParseInteger(e.message[28..]) == Some(id)
  {
    Text.DecimalRoundTrip(id);
    ResourceNotFound("Flashcard not found with id " + Text.IntToDecimal(id))
  }

  /** `convertToDto`: the eight shared properties; counters, timestamps and owner stay behind. */
  function ConvertToDto(row: FlashcardRow): Dto.FlashCardDto {
    Dto.FlashCardDto(row.id, row.frontContent, row.backContent, row.category, row.difficultyLevel,
                     row.exampleCode, row.tags, row.language)
  }

  /** `convertToEntity`'s record: the eight shared properties over a new instance's defaults. */
  function EntityOf(dto: Dto.FlashCardDto, now: Timestamp): FlashcardRow {
    NewRow(now).(id := dto.id, frontContent := dto.frontContent, backContent := dto.backContent,
                 category := dto.category, difficultyLevel := dto.difficultyLevel,
                 exampleCode := dto.exampleCode, tags := dto.tags, language := dto.language)
  }

  /** A DTO converted to an entity and back is the same DTO. */
  lemma DtoRoundTrip(dto: Dto.FlashCardDto, now: Timestamp)
    ensures ConvertToDto(EntityOf(dto, now)) == dto
  {
  }

  /**
   * An entity converted to a DTO and back keeps its eight shared properties and
   * gets a new instance's counters, creation time and no owner.
   */
  lemma EntityRoundTrip(row: FlashcardRow, now: Timestamp)
    ensures EntityOf(ConvertToDto(row), now)
            == row.(viewCount := 0, masteryScore := 0, createdAt := Some(now), updatedAt := None, userId := None)
  {
  }

  /** `convertToEntity`: a new instance filled from the DTO through its setters. */
  method ConvertToEntity(dto: Dto.FlashCardDto, now: Timestamp) returns (f: Flashcard)
    ensures fresh(f) && f.Row() == EntityOf(dto, now)
  {
    f := new Flashcard(now);
    f.SetId(dto.id);
    f.SetFrontContent(dto.frontContent);
    f.SetBackContent(dto.backContent);
    f.SetCategory(dto.category);
    f.SetDifficultyLevel(dto.difficultyLevel);
    f.SetExampleCode(dto.exampleCode);
    f.SetTags(dto.tags);
    f.SetLanguage(dto.language);
  }

  /** A stream of records mapped through `convertToDto`, one DTO per record under its key. */
  function ConvertAll(t: Repo.Table): (dtos: map<int, Dto.FlashCardDto>)
    ensures dtos.Keys == t.Keys
    ensures forall id :: id in t ==> dtos[id] == ConvertToDto(t[id])
  {
    map id | id in t :: ConvertToDto(t[id])
  }

  /** A difficulty level as the service writes it: with no ASCII lower-case letter. */
  predicate IsUpperCase(s: string) {
    Text.Upper(s) == s
  }

  /** The record `createFlashcard` stores under `id` for the owner `ownerId`. */
  function CreatedRow(dto: Dto.FlashCardDto, ownerId: int, now: Timestamp, id: int): (row: FlashcardRow)
    requires dto.difficultyLevel.Some?
    ensures row.difficultyLevel == Some(Text.Upper(dto.difficultyLevel.value))
    ensures ConvertToDto(row) == dto.(id := Some(id), difficultyLevel := row.difficultyLevel)
    ensures row.viewCount == 0 && row.masteryScore == 0
    ensures row.createdAt == Some(now) && row.updatedAt == None && row.userId == Some(ownerId)
  {
    NewRow(now).(id := Some(id), frontContent := dto.frontContent, backContent := dto.backContent,
                 category := dto.category, difficultyLevel := Some(Text.Upper(dto.difficultyLevel.value)),
                 exampleCode := dto.exampleCode, tags := dto.tags, language := dto.language,
                 userId := Some(ownerId))
  }

  /** The values of `row` after `updateFlashcard`'s seven setters, before the update hook. */
  function EditedRow(row: FlashcardRow, dto: Dto.FlashCardDto): (r: FlashcardRow)
    requires dto.difficultyLevel.Some?
    ensures r.difficultyLevel == Some(Text.Upper(dto.difficultyLevel.value))
    ensures ConvertToDto(r) == dto.(id := row.id, difficultyLevel := r.difficultyLevel)
    ensures r.viewCount == row.viewCount && r.masteryScore == row.masteryScore
    ensures r.createdAt == row.createdAt && r.updatedAt == row.updatedAt && r.userId == row.userId
  {
    row.(frontContent := dto.frontContent, backContent := dto.backContent, category := dto.category,
         difficultyLevel := Some(Text.Upper(dto.difficultyLevel.value)), exampleCode := dto.exampleCode,
         tags := dto.tags, language := dto.language)
  }

  /** Updating a record with its own DTO changes no value, so no update is written or stamped. */
  lemma EditWithOwnDtoChangesNothing(row: FlashcardRow)
    requires row.difficultyLevel.Some? && IsUpperCase(row.difficultyLevel.value)
    ensures EditedRow(row, ConvertToDto(row)) == row
  {
  }

  /** The value written back at commit: stamped by `onUpdate` only when something changed. */
  function Flushed(before: FlashcardRow, after: FlashcardRow, now: Timestamp): (r: FlashcardRow)
    ensures after == before ==> r == before
    ensures after != before ==> r == after.(updatedAt := Some(now))
  {
    if after == before then before else after.(updatedAt := Some(now))
  }

  class FlashcardService {
    var flashcards: Repo.Table
    var nextId: int
    const userService: Accounts.UserService

    /**
     * Every stored record sits under its own id, below the next id to assign,
     * fills its NOT NULL columns and has an upper-case difficulty level.
     */
    ghost predicate Valid()
      reads this
    {
      forall id :: id in flashcards ==>
        && flashcards[id].id == Some(id) && id < nextId && Persistable(flashcards[id])
        && IsUpperCase(flashcards[id].difficultyLevel.value)
    }

    constructor (users: Accounts.UserService)
      ensures Valid() && flashcards == map[] && nextId == 1 && userService == users
    {
      flashcards := map[];
      nextId := 1;
      userService := users;
    }

    /** `getAllFlashCards`: one DTO per stored record. */
    function GetAllFlashCards(): (dtos: map<int, Dto.FlashCardDto>)
      reads this
      ensures dtos.Keys == flashcards.Keys
      ensures forall id :: id in dtos ==> dtos[id] == ConvertToDto(flashcards[id])
    {
      ConvertAll(flashcards)
    }

    /** `getFlashcardById`. */
    function GetFlashcardById(id: int): (r: Result<Dto.FlashCardDto, ServiceError>)
      reads this
      ensures r.Ok? <==> id in flashcards
      ensures r.Ok? ==> r.value == ConvertToDto(flashcards[id]) && r.value.id == flashcards[id].id
      ensures r.Err? ==> r.error == NotFound(id)
    {
      if id in flashcards then Ok(ConvertToDto(flashcards[id])) else Err(NotFound(id))
    }

    /** `getFlashcardByDifficulty`: the records whose level is the argument upper-cased. */
    function GetFlashcardByDifficulty(difficulty: string): (dtos: map<int, Dto.FlashCardDto>)
      reads this
      ensures forall id :: id in dtos <==>
                id in flashcards && flashcards[id].difficultyLevel == Some(Text.Upper(difficulty))
      ensures forall id :: id in dtos ==> dtos[id] == ConvertToDto(flashcards[id])
    {
      ConvertAll(Repo.FindByDifficultyLevel(flashcards, Text.Upper(difficulty)))
    }

    /** A stored record is found by its own level written in any ASCII case. */
    lemma DifficultyQueryFindsAnyCase(id: int, difficulty: string)
      requires Valid() && id in flashcards
      requires Text.Upper(difficulty) == Text.Upper(flashcards[id].difficultyLevel.value)
      ensures id in GetFlashcardByDifficulty(difficulty)
    {
    }

    /** `getFlashcardByCategory`: the records with exactly this category. */
    function GetFlashcardByCategory(category: string): (dtos: map<int, Dto.FlashCardDto>)
      reads this
      ensures forall id :: id in dtos <==> id in flashcards && flashcards[id].category == Some(category)
      ensures forall id :: id in dtos ==> dtos[id] == ConvertToDto(flashcards[id])
    {
      ConvertAll(Repo.FindByCategory(flashcards, category))
    }

    /** `getFlashcardByDifficultyAndCategory`: the two filters together. */
    function GetFlashcardByDifficultyAndCategory(difficulty: string, category: string): (dtos: map<int, Dto.FlashCardDto>)
      reads this
      ensures dtos.Keys == GetFlashcardByDifficulty(difficulty).Keys * GetFlashcardByCategory(category).Keys
      ensures forall id :: id in dtos ==> dtos[id] == ConvertToDto(flashcards[id])
    {
      Repo.AndIsIntersection(flashcards, Text.Upper(difficulty), category);
      ConvertAll(Repo.FindByDifficultyLevelAndCategory(flashcards, Text.Upper(difficulty), category))
    }

    /** `getAllCategories`: each category in use, once. */
    function GetAllCategories(): (r: set<Option<string>>)
      reads this
      ensures forall c :: c in r <==> exists id :: id in flashcards && flashcards[id].category == c
    {
      Repo.FindAllCategories(flashcards)
    }

    /** `getAllDifficultyLevel`: each level in use, once. */
    function GetAllDifficultyLevel(): (r: set<Option<string>>)
      reads this
      ensures forall d :: d in r <==> exists id :: id in flashcards && flashcards[id].difficultyLevel == d
    {
      Repo.FindAllDifficultyLevels(flashcards)
    }

    /** In a valid table neither list holds NULL, and every listed level is upper-case. */
    lemma ListsHoldNoNull()
      requires Valid()
      ensures None !in GetAllCategories() && None !in GetAllDifficultyLevel()
      ensures forall d :: d in GetAllDifficultyLevel() ==> IsUpperCase(d.value)
    {
      forall d | d in GetAllDifficultyLevel() ensures d.Some? && IsUpperCase(d.value) {
        var id :| id in flashcards && flashcards[id].difficultyLevel == d;
      }
    }

    /** The managed instance of a loaded record. */
    method Load(row: FlashcardRow, now: Timestamp) returns (f: Flashcard)
      ensures fresh(f) && f.Row() == row
    {
      f := new Flashcard(now);
      f.SetId(row.id);
      f.SetFrontContent(row.frontContent);
      f.SetBackContent(row.backContent);
      f.SetCategory(row.category);
      f.SetDifficultyLevel(row.difficultyLevel);
      f.SetLanguage(row.language);
      f.SetExampleCode(row.exampleCode);
      f.SetTags(row.tags);
      f.SetViewCount(row.viewCount);
      f.SetMasteryScore(row.masteryScore);
      f.SetCreatedAt(row.createdAt);
      f.SetUpdatedAt(row.updatedAt);
      f.SetUserId(row.userId);
    }

    /**
     * `createFlashcard`: the owner is looked up first; a null level fails when
     * upper-cased; a NULL in a NOT NULL column is refused by the database. Any
     * failure rolls back. Otherwise the record is stored under a fresh id.
     */
    method CreateFlashcard(dto: Dto.FlashCardDto, username: string, now: Timestamp)
      returns (r: Result<Dto.FlashCardDto, ServiceError>)
      requires Valid()
      modifies this
      ensures Valid()
      ensures r.Err? ==> flashcards == old(flashcards) && nextId == old(nextId)
      ensures userService.FindByUsername(username).Err? ==> r == Err(userService.FindByUsername(username).error)
      ensures userService.FindByUsername(username).Ok? && dto.difficultyLevel.None? ==> r == Err(NullPointer)
      ensures userService.FindByUsername(username).Ok? && dto.difficultyLevel.Some? ==>
                var row := CreatedRow(dto, userService.FindByUsername(username).value.id, now, old(nextId));
                && (Persistable(row) ==>
                      && r == Ok(ConvertToDto(row)) && old(nextId) !in old(flashcards)
                      && flashcards == old(flashcards)[old(nextId) := row] && nextId == old(nextId) + 1)
                && (!Persistable(row) ==> r == Err(DataIntegrityViolation))
    {
      var owner := userService.FindByUsername(username);
      if owner.Err? {
        return Err(owner.error);
      }
      var f := new Flashcard(now);
      f.SetFrontContent(dto.frontContent);
      f.SetBackContent(dto.backContent);
      f.SetCategory(dto.category);
      if dto.difficultyLevel.None? {
        return Err(NullPointer);
      }
      f.SetDifficultyLevel(Some(Text.Upper(dto.difficultyLevel.value)));
      f.SetExampleCode(dto.exampleCode);
      f.SetTags(dto.tags);
      f.SetLanguage(dto.language);
      f.SetUserId(Some(owner.value.id));
      if !Persistable(f.Row()) {
        return Err(DataIntegrityViolation);
      }
      f.SetId(Some(nextId));
      assert f.Row() == CreatedRow(dto, owner.value.id, now, nextId);
      Text.UpperIdempotent(dto.difficultyLevel.value);
      flashcards := flashcards[nextId := f.Row()];
      nextId := nextId + 1;
      return Ok(ConvertToDto(f.Row()));
    }

    /**
     * `updateFlashcard`: the seven editable properties are replaced (the level
     * upper-cased); id, counters, creation time and owner are kept; `updatedAt`
     * is stamped only when some value changed.
     */
    method UpdateFlashcard(id: int, dto: Dto.FlashCardDto, now: Timestamp)
      returns (r: Result<Dto.FlashCardDto, ServiceError>)
      requires Valid()
      modifies this
      ensures Valid() && nextId == old(nextId)
      ensures r.Err? ==> flashcards == old(flashcards)
      ensures id !in old(flashcards) ==> r == Err(NotFound(id))
      ensures id in old(flashcards) && dto.difficultyLevel.None? ==> r == Err(NullPointer)
      ensures id in old(flashcards) && dto.difficultyLevel.Some? ==>
                var edited := EditedRow(old(flashcards)[id], dto);
                && (Persistable(edited) ==>
                      && r == Ok(ConvertToDto(edited))
                      && flashcards == old(flashcards)[id := Flushed(old(flashcards)[id], edited, now)])
                && (!Persistable(edited) ==> r == Err(DataIntegrityViolation))
    {
      if id !in flashcards {
        return Err(NotFound(id));
      }
      var before := flashcards[id];
      var f := Load(before, now);
      f.SetFrontContent(dto.frontContent);
      f.SetBackContent(dto.backContent);
      f.SetCategory(dto.category);
      if dto.difficultyLevel.None? {
        return Err(NullPointer);
      }
      f.SetDifficultyLevel(Some(Text.Upper(dto.difficultyLevel.value)));
      f.SetExampleCode(dto.exampleCode);
      f.SetTags(dto.tags);
      f.SetLanguage(dto.language);
      assert f.Row() == EditedRow(before, dto);
      if !Persistable(f.Row()) {
        return Err(DataIntegrityViolation);
      }
      r := Ok(ConvertToDto(f.Row()));
      if f.Row() != before {
        f.OnUpdate(now);
      }
      Text.UpperIdempotent(dto.difficultyLevel.value);
      flashcards := flashcards[id := f.Row()];
    }

    /** `deleteFlashcard`: removes exactly the record with this id. */
    method DeleteFlashcard(id: int) returns (r: Result<(), ServiceError>)
      requires Valid()
      modifies this
      ensures Valid() && nextId == old(nextId)
      ensures id !in old(flashcards) ==> r == Err(NotFound(id)) && flashcards == old(flashcards)
      ensures id in old(flashcards) ==> r == Ok(()) && flashcards == old(flashcards) - {id}
    {
      if id !in flashcards {
        return Err(NotFound(id));
      }
      flashcards := flashcards - {id};
      return Ok(());
    }

    /**
     * `incrementViewCount`: adds one to the counter with Java's `int` wrap-around;
     * the change is always real, so `updatedAt` is stamped; nothing else changes.
     */
    method IncrementViewCount(id: int, now: Timestamp) returns (r: Result<Dto.FlashCardDto, ServiceError>)
      requires Valid()
      modifies this
      ensures Valid() && nextId == old(nextId)
      ensures id !in old(flashcards) ==> r == Err(NotFound(id)) && flashcards == old(flashcards)
      ensures id in old(flashcards) ==>
                var before := old(flashcards)[id];
                && r == Ok(ConvertToDto(before))
                && flashcards == old(flashcards)[id := before.(viewCount := AddInt32(before.viewCount, 1),
                                                               updatedAt := Some(now))]
    {
      if id !in flashcards {
        return Err(NotFound(id));
      }
      var before := flashcards[id];
      var f := Load(before, now);
      f.SetViewCount(AddInt32(f.viewCount, 1));
      r := Ok(ConvertToDto(f.Row()));
      if f.Row() != before {
        f.OnUpdate(now);
      }
      flashcards := flashcards[id := f.Row()];
    }
  }
}
