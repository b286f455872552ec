/**
 * The flashcard transfer object (dto/FlashCardDTO.java) and its bean-validation
 * constraints, checked when a request body is bound with `@Valid`.
 */
module FlashCardDto {
  import opened Wrappers

  /** The DTO's properties; a Java `null` is `None`. */
  datatype FlashCardDto = FlashCardDto(
    id: Option<int>,
    frontContent: Option<string>,
    backContent: Option<string>,
    category: Option<string>,
    difficultyLevel: Option<string>,
    exampleCode: Option<string>,
    tags: Option<string>,
    language: Option<string>)

  /** `new FlashCardDTO()`: every property null except `language`, which starts as "java". */
  const EmptyDto := FlashCardDto(None, None, None, None, None, None, None, Some("java"))

  const FrontRequired := "Front content is required"
  const FrontTooLong := "Front content must be less than 500 Chars"
  const BackRequired := "Back content is required"
  const BackTooLong := "Back content must be less than 2000 chars"
  const CategoryRequired := "Category is required"
  const DifficultyRequired := "Difficulty level is require"

  /** The length of a string as Java counts it: UTF-16 code units. */
  function Utf16Length(s: string): (n: nat)
    ensures |s| <= n <= 2 * |s|
  {
    if s == [] then 0 else (if s[0] as int >= 0x1_0000 then 2 else 1) + Utf16Length(s[1..])
  }

  /** A string with no character beyond the Basic Multilingual Plane. */
  predicate IsBmp(s: string) {
    forall k :: 0 <= k < |s| ==> (s[k] as int) < 0x1_0000
  }

  /** Outside the supplementary planes Java's length is the number of characters. */
  lemma {:induction false} Utf16LengthOfBmp(s: string)
    requires IsBmp(s)
    ensures Utf16Length(s) == |s|
  {
    if s != [] {
      assert IsBmp(s[1..]) by {
        forall k | 0 <= k < |s[1..]| ensures (s[1..][k] as int) < 0x1_0000 {
          assert s[1..][k] == s[k + 1];
        }
      }
      Utf16LengthOfBmp(s[1..]);
    }
  }

  /**
   * `@NotBlank`: not null and non-empty after `String.trim()`, which strips every
   * character up to U+0020; so some character lies above U+0020.
   */
  predicate NotBlank(v: Option<string>) {
    v.Some? && exists k :: 0 <= k < |v.value| && v.value[k] > ' '
  }

  /** `@Size(max = m)`: null is valid; otherwise at most `m` UTF-16 units, `m` itself included. */
  predicate SizeAtMost(v: Option<string>, max: nat) {
    v.None? || Utf16Length(v.value) <= max
  }

  /** The messages of every constraint the DTO breaks. */
  function Violations(dto: FlashCardDto): (msgs: set<string>)
    ensures FrontRequired in msgs <==> !NotBlank(dto.frontContent)
    ensures FrontTooLong in msgs <==> !SizeAtMost(dto.frontContent, 500)
    ensures BackRequired in msgs <==> !NotBlank(dto.backContent)
    ensures BackTooLong in msgs <==> !SizeAtMost(dto.backContent, 2000)
    ensures CategoryRequired in msgs <==> !NotBlank(dto.category)
    ensures DifficultyRequired in msgs <==> !NotBlank(dto.difficultyLevel)
    ensures msgs <= {FrontRequired, FrontTooLong, BackRequired, BackTooLong, CategoryRequired, DifficultyRequired}
  {
    (if NotBlank(dto.frontContent) then {} else {FrontRequired})
    + (if SizeAtMost(dto.frontContent, 500) then {} else {FrontTooLong})
    + (if NotBlank(dto.backContent) then {} else {BackRequired})
    + (if SizeAtMost(dto.backContent, 2000) then {} else {BackTooLong})
    + (if NotBlank(dto.category) then {} else {CategoryRequired})
    + (if NotBlank(dto.difficultyLevel) then {} else {DifficultyRequired})
  }

  /** A DTO that binds without errors. */
  predicate IsValid(dto: FlashCardDto) {
    Violations(dto) == {}
  }

  /** Validity is exactly the four annotated fields meeting their constraints. */
  lemma ValidIff(dto: FlashCardDto)
    ensures IsValid(dto) <==>
      && NotBlank(dto.frontContent) && SizeAtMost(dto.frontContent, 500)
      && NotBlank(dto.backContent) && SizeAtMost(dto.backContent, 2000)
      && NotBlank(dto.category) && NotBlank(dto.difficultyLevel)
  {
    if !IsValid(dto) {
      var m :| m in Violations(dto);
    }
  }

  /** `id`, `exampleCode`, `tags` and `language` carry no constraint: any values keep a DTO valid or invalid. */
  lemma UnconstrainedFields(dto: FlashCardDto, id: Option<int>, exampleCode: Option<string>,
                            tags: Option<string>, language: Option<string>)
    ensures Violations(dto.(id := id, exampleCode := exampleCode, tags := tags, language := language))
            == Violations(dto)
  {
  }

  /**
   * Although the message says "less than 500", a BMP front text of exactly 500
   * characters passes; 501 is the first length rejected.
   */
  lemma FrontSizeBoundary(dto: FlashCardDto)
    requires dto.frontContent.Some? && IsBmp(dto.frontContent.value)
    ensures FrontTooLong in Violations(dto) <==> |dto.frontContent.value| > 500
  {
    Utf16LengthOfBmp(dto.frontContent.value);
  }

  /** Likewise the back text: 2000 characters pass, 2001 do not. */
  lemma BackSizeBoundary(dto: FlashCardDto)
    requires dto.backContent.Some? && IsBmp(dto.backContent.value)
    ensures BackTooLong in Violations(dto) <==> |dto.backContent.value| > 2000
  {
    Utf16LengthOfBmp(dto.backContent.value);
  }

  /** A fresh DTO is invalid on exactly the four required fields. */
  lemma EmptyDtoViolations()
    ensures Violations(EmptyDto) == {FrontRequired, BackRequired, CategoryRequired, DifficultyRequired}
  {
  }
}
