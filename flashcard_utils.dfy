/**
 * The client's defensive normalisation of loosely typed server records into the
 * `Flashcard` shape (utils/flashcardUtils.ts over types/flashcard.ts).
 */
module FlashcardUtils {
  import opened Wrappers
  import Text

  /**
   * The scalar JavaScript values a field of a decoded JSON record can hold; numbers
   * are integers here. Array and object field values are not modelled.
   */
  datatype JsValue = Undefined | Null | Bool(b: bool) | Num(n: int) | Str(s: string)

  /** ECMAScript ToBoolean: `undefined`, `null`, `false`, `0` and `''` are falsy. */
  predicate Truthy(v: JsValue) {
    match v
    case Undefined => false
    case Null => false
    case Bool(b) => b
    case Num(n) => n != 0
    case Str(s) => s != ""
  }

  /** ECMAScript `String(v)`. */
  function ToJsString(v: JsValue): (r: string)
    ensures v.Str? ==> r == v.s
    ensures Truthy(v) ==> r != ""
  {
    match v
    case Undefined => "undefined"
    case Null => "null"
    case Bool(b) => if b then "true" else "false"
    case Num(n) => Text.IntToDecimal(n)
    case Str(s) => s
  }

  /**
   * ECMAScript `Number(v)` restricted to integer results; `None` is NaN. A string
   * is trimmed; empty it is 0, an optional '+' or '-' followed by decimal digits
   * is its value, and any other string is `None`. That includes forms JavaScript
   * reads as numbers, such as "0x1F", "0b11", "1e3", "2.0" and "Infinity".
   */
  function ToJsNumber(v: JsValue): (r: Option<int>)
    ensures v.Num? ==> r == Some(v.n)
    ensures v == Undefined ==> r == None
    ensures v == Null ==> r == Some(0)
    ensures v.Bool? ==> r == Some(if v.b then 1 else 0)
    ensures v.Str? && Text.Trim(v.s) == "" ==> r == Some(0)
    ensures v.Str? && Text.Trim(v.s) != "" ==> r == Text.ParseInteger(Text.Trim(v.s))
  {
    match v
    case Undefined => None
    case Null => Some(0)
    case Bool(b) => Some(if b then 1 else 0)
    case Num(n) => Some(n)
    case Str(s) =>
      var t := Text.Trim(s);
      if t == "" then Some(0) else Text.ParseInteger(t)
  }

  /** A record as it arrives from the server: every property may be missing or of any type. */
  datatype RawRecord = RawRecord(
    id: JsValue,
    frontContent: JsValue,
    backContent: JsValue,
    difficultyLevel: JsValue,
    category: JsValue,
    language: JsValue,
    tags: JsValue,
    exampleCode: JsValue,
    createdAt: JsValue)

  /**
   * The canonical client record. `difficultyLevel` is whatever truthy value the
   * server sent (it is not coerced to a string); `exampleCode` and `createdAt`
   * are passed through unchanged.
   */
  datatype Flashcard = Flashcard(
    id: int,
    frontContent: string,
    backContent: string,
    difficultyLevel: JsValue,
    category: string,
    language: string,
    tags: string,
    exampleCode: JsValue,
    createdAt: JsValue)

  /** `String(v || fallback)`. */
  function StringOr(v: JsValue, fallback: string): (r: string)
    ensures Truthy(v) ==> r == ToJsString(v)
    ensures !Truthy(v) ==> r == fallback
  {
    ToJsString(if Truthy(v) then v else Str(fallback))
  }

  /** `Number(v) || 0`: NaN and 0 both give 0. */
  function NumberOrZero(v: JsValue): (r: int)
    ensures ToJsNumber(v).Some? ==> r == ToJsNumber(v).value
    ensures ToJsNumber(v).None? ==> r == 0
  {
    match ToJsNumber(v)
    case Some(n) => n
    case None => 0
  }

  /** `normalizeFlashcard`. */
  function NormalizeFlashcard(data: RawRecord): (r: Flashcard)
    // id: `Number(id) || 0`: the numeric value; 0 when missing, null, false, blank or not a number; 1 for true
    ensures data.id.Num? ==> r.id == data.id.n
    ensures data.id.Str? && Text.ParseInteger(Text.Trim(data.id.s)).Some? ==>
              r.id == Text.ParseInteger(Text.Trim(data.id.s)).value
    ensures ToJsNumber(data.id).None? ==> r.id == 0
    ensures r.id == NumberOrZero(data.id)
    ensures data.id == Null || data.id == Bool(false) ==> r.id == 0
    ensures data.id == Bool(true) ==> r.id == 1
    ensures data.id.Str? && Text.Trim(data.id.s) == "" ==> r.id == 0
    // text fields: the string form of a truthy input, '' otherwise
    ensures r.frontContent == (if Truthy(data.frontContent) then ToJsString(data.frontContent) else "")
    ensures r.backContent == (if Truthy(data.backContent) then ToJsString(data.backContent) else "")
    ensures r.category == (if Truthy(data.category) then ToJsString(data.category) else "")
    ensures r.tags == (if Truthy(data.tags) then ToJsString(data.tags) else "")
    // difficulty: the input itself when truthy, 'BEGINNER' otherwise, so always truthy
    ensures Truthy(r.difficultyLevel)
    ensures r.difficultyLevel == (if Truthy(data.difficultyLevel) then data.difficultyLevel else Str("BEGINNER"))
    // language: never empty, 'java' when the input is falsy
    ensures r.language != ""
    ensures !Truthy(data.language) ==> r.language == "java"
    ensures Truthy(data.language) ==> r.language == ToJsString(data.language)
    // passed through
    ensures r.exampleCode == data.exampleCode && r.createdAt == data.createdAt
  {
    Flashcard(
      NumberOrZero(data.id),
      StringOr(data.frontContent, ""),
      StringOr(data.backContent, ""),
      if Truthy(data.difficultyLevel) then data.difficultyLevel else Str("BEGINNER"),
      StringOr(data.category, ""),
      StringOr(data.language, "java"),
      StringOr(data.tags, ""),
      data.exampleCode,
      data.createdAt)
  }

  /** `normalizeFlashcards`: `data.map(normalizeFlashcard)`. */
  function NormalizeFlashcards(data: seq<RawRecord>): (r: seq<Flashcard>)
    ensures |r| == |data|
    ensures forall k :: 0 <= k < |data| ==> r[k] == NormalizeFlashcard(data[k])
  {
    if data == [] then [] else [NormalizeFlashcard(data[0])] + NormalizeFlashcards(data[1..])
  }

  /** A canonical record as the server would send it back: every field with its own type. */
  function AsRaw(f: Flashcard): RawRecord {
    RawRecord(Num(f.id), Str(f.frontContent), Str(f.backContent), f.difficultyLevel, Str(f.category),
              Str(f.language), Str(f.tags), f.exampleCode, f.createdAt)
  }

  /** A record is in normal form when it is what normalisation can produce. */
  predicate IsNormal(f: Flashcard) {
    Truthy(f.difficultyLevel) && f.language != ""
  }

  /** Normalising a record already in normal form changes nothing. */
  lemma NormalizeIdempotent(f: Flashcard)
    requires IsNormal(f)
    ensures NormalizeFlashcard(AsRaw(f)) == f
  {
  }

  /** Normalisation yields normal forms, so normalising twice is normalising once. */
  lemma NormalizeTwice(data: RawRecord)
    ensures IsNormal(NormalizeFlashcard(data))
    ensures NormalizeFlashcard(AsRaw(NormalizeFlashcard(data))) == NormalizeFlashcard(data)
  {
    NormalizeIdempotent(NormalizeFlashcard(data));
  }

  /** A numeric id sent as a decimal string normalises to the same id as the number itself. */
  lemma StringIdAgreesWithNumber(data: RawRecord, n: int)
    requires data.id == Str(Text.IntToDecimal(n))
    ensures NormalizeFlashcard(data).id == n
  {
    Text.DecimalRoundTrip(n);
    var s := Text.IntToDecimal(n);
    assert Text.IsTrimmed(s) by {
      assert s[0] == '-' || Text.IsDigit(s[0]);
      if n < 0 {
        assert s[|s| - 1] == Text.NatToDecimal(-n)[|Text.NatToDecimal(-n)| - 1];
      }
    }
    Text.TrimOfTrimmed(s);
  }
}
