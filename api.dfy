/**
 * The client's unauthenticated service layer (services/api.ts): URL construction,
 * the filter query string, and the fail-soft handling of every outcome of a request.
 */
module Api {
  import opened Wrappers
  import Text
  import FormUrlEncoded
  import opened Http
  import opened FlashcardUtils

  const ApiBaseUrl: string := "http://172.20.10.5:8080/api"
  const FlashcardsUrl: string := ApiBaseUrl + "/flashcards"

  /** The difficulty levels the client falls back to when the server does not answer with a list. */
  const DefaultDifficultyLevels: seq<string> := ["BEGINNER", "INTERMEDIATE", "ADVANCED"]

  // ---------------------------------------------------------------------------
  // Lists of flashcards
  // ---------------------------------------------------------------------------

  /**
   * The shared shape of `getAllFlashcards` and `getFlashcardsWithFilters`: a
   * successful answer is normalised record by record, and any failure (a status
   * that is not ok, a network error, a body that does not decode) gives `[]`.
   */
  function ReadFlashcardList(reply: Reply<seq<RawRecord>>): (r: seq<Flashcard>)
    ensures reply.Success? ==> |r| == |reply.body|
    ensures reply.Success? ==> forall k :: 0 <= k < |r| ==> r[k] == NormalizeFlashcard(reply.body[k])
    ensures !reply.Success? ==> r == []
  {
    match reply
    case Success(data) => NormalizeFlashcards(data)
    case HttpError(_, _) => []
    case Threw(_) => []
  }

  /** Filter criteria; a field is `None` when the property is absent. */
  datatype FilterOptions = FilterOptions(
    difficultyLevel: Option<string>,
    category: Option<string>,
    language: Option<string>,
    tag: Option<string>)

  /** A filter field is sent when it is truthy: present and non-empty. */
  predicate IsSet(v: Option<string>) {
    v.Some? && v.value != ""
  }

  /** The query key of filter field `k`, in the order the client appends them. */
  function FilterKey(k: int): string
    requires 0 <= k < 4
  {
    if k == 0 then "difficultyLevel"
    else if k == 1 then "category"
    else if k == 2 then "language"
    else "tag"
  }

  /** The filter field whose key is `FilterKey(k)`. */
  function FilterValue(f: FilterOptions, k: int): Option<string>
    requires 0 <= k < 4
  {
    if k == 0 then f.difficultyLevel
    else if k == 1 then f.category
    else if k == 2 then f.language
    else f.tag
  }

  /** `p` is the query pair for the set filter field `k`. */
  predicate IsFilterParam(f: FilterOptions, p: (string, string), k: int) {
    0 <= k < 4 && IsSet(FilterValue(f, k)) && p == (FilterKey(k), FilterValue(f, k).value)
  }

  /** The pair field `k` contributes to the query: one pair when the field is set, none otherwise. */
  function FieldParam(f: FilterOptions, k: int): (r: seq<(string, string)>)
    requires 0 <= k < 4
  {
    if IsSet(FilterValue(f, k)) then [(FilterKey(k), FilterValue(f, k).value)] else []
  }

  /** The pairs of fields `k` to 3, in field order: the reference for the query the client builds. */
  function ParamsFrom(f: FilterOptions, k: int): seq<(string, string)>
    requires 0 <= k <= 4
    decreases 4 - k
  {
    if k == 4 then [] else FieldParam(f, k) + ParamsFrom(f, k + 1)
  }

  /** Past the pair of field `k`, the query continues with the pairs of the later fields. */
  lemma ParamsTail(f: FilterOptions, k: int, i: int)
    requires 0 <= k < 4
    requires |FieldParam(f, k)| <= i < |ParamsFrom(f, k)|
    ensures |ParamsFrom(f, k)| == |FieldParam(f, k)| + |ParamsFrom(f, k + 1)|
    ensures ParamsFrom(f, k)[i] == ParamsFrom(f, k + 1)[i - |FieldParam(f, k)|]
  {
  }

  /** The field a query key belongs to, by position. */
  function KeyIndex(key: string): (k: int)
    ensures 0 <= k < 4 && (key == FilterKey(k) || k == 3)
  {
    if key == "difficultyLevel" then 0
    else if key == "category" then 1
    else if key == "language" then 2
    else 3
  }

  /** Pairs name distinct fields, so the field behind a pair is the one its key names. */
  lemma FilterParamUnique(f: FilterOptions, p: (string, string), k: int)
    requires IsFilterParam(f, p, k)
    ensures KeyIndex(p.0) == k
  {
  }

  /** Every pair of the query is the pair of a set field from `k` on, the one its key names. */
  lemma {:induction false} ParamsSound(f: FilterOptions, k: int, i: int)
    requires 0 <= k <= 4
    requires 0 <= i < |ParamsFrom(f, k)|
    ensures k <= KeyIndex(ParamsFrom(f, k)[i].0)
    ensures IsFilterParam(f, ParamsFrom(f, k)[i], KeyIndex(ParamsFrom(f, k)[i].0))
    decreases 4 - k
  {
    var head := FieldParam(f, k);
    var p := ParamsFrom(f, k);
    if i < |head| {
      assert IsFilterParam(f, p[i], k);
      FilterParamUnique(f, p[i], k);
    } else {
      ParamsTail(f, k, i);
      ParamsSound(f, k + 1, i - |head|);
    }
  }

  /** Every set field contributes its pair to the query. */
  lemma {:induction false} ParamsComplete(f: FilterOptions, k: int, j: int)
    requires 0 <= k <= j < 4
    requires IsSet(FilterValue(f, j))
    ensures exists i :: 0 <= i < |ParamsFrom(f, k)| && IsFilterParam(f, ParamsFrom(f, k)[i], j)
    decreases 4 - k
  {
    var head := FieldParam(f, k);
    var p := ParamsFrom(f, k);
    if j == k {
      assert IsFilterParam(f, p[0], j);
    } else {
      ParamsComplete(f, k + 1, j);
      var i :| 0 <= i < |ParamsFrom(f, k + 1)| && IsFilterParam(f, ParamsFrom(f, k + 1)[i], j);
      ParamsTail(f, k, i + |head|);
    }
  }

  /** The pairs appear in field order, so no key is sent twice. */
  lemma {:induction false} ParamsOrdered(f: FilterOptions, k: int, i1: int, i2: int)
    requires 0 <= k <= 4
    requires 0 <= i1 < i2 < |ParamsFrom(f, k)|
    ensures KeyIndex(ParamsFrom(f, k)[i1].0) < KeyIndex(ParamsFrom(f, k)[i2].0)
    decreases 4 - k
  {
    var head := FieldParam(f, k);
    var p := ParamsFrom(f, k);
    ParamsTail(f, k, i2);
    ParamsSound(f, k + 1, i2 - |head|);
    if i1 < |head| {
      assert IsFilterParam(f, p[i1], k);
      FilterParamUnique(f, p[i1], k);
    } else {
      ParamsTail(f, k, i1);
      ParamsOrdered(f, k + 1, i1 - |head|, i2 - |head|);
    }
  }

  /** The query is empty exactly when no field from `k` on is set. */
  lemma {:induction false} ParamsEmptyIff(f: FilterOptions, k: int)
    requires 0 <= k <= 4
    ensures ParamsFrom(f, k) == [] <==> forall j :: k <= j < 4 ==> !IsSet(FilterValue(f, j))
    decreases 4 - k
  {
    if k < 4 {
      ParamsEmptyIff(f, k + 1);
    }
  }

  /** The `URLSearchParams` that `getFlashcardsWithFilters` appends field by field. */
  method SearchParams(filters: FilterOptions) returns (params: seq<(string, string)>)
    ensures params == ParamsFrom(filters, 0)
  {
    params := [];
    if IsSet(filters.difficultyLevel) {
      params := params + [("difficultyLevel", filters.difficultyLevel.value)];
    }
    assert params == FieldParam(filters, 0);
    if IsSet(filters.category) {
      params := params + [("category", filters.category.value)];
    }
    assert params == FieldParam(filters, 0) + FieldParam(filters, 1);
    if IsSet(filters.language) {
      params := params + [("language", filters.language.value)];
    }
    assert params == FieldParam(filters, 0) + FieldParam(filters, 1) + FieldParam(filters, 2);
    if IsSet(filters.tag) {
      params := params + [("tag", filters.tag.value)];
    }
    assert params == FieldParam(filters, 0) + FieldParam(filters, 1) + FieldParam(filters, 2) + FieldParam(filters, 3);
    ParamsFromAll(filters);
  }

  /** The query over all four fields, written out. */
  lemma ParamsFromAll(f: FilterOptions)
    ensures ParamsFrom(f, 0) == FieldParam(f, 0) + FieldParam(f, 1) + FieldParam(f, 2) + FieldParam(f, 3)
  {
    var p0, p1, p2, p3 := FieldParam(f, 0), FieldParam(f, 1), FieldParam(f, 2), FieldParam(f, 3);
    assert ParamsFrom(f, 4) == [];
    assert ParamsFrom(f, 3) == p3 + [];
    assert ParamsFrom(f, 1) == p1 + (p2 + p3);
    assert p0 + (p1 + (p2 + p3)) == p0 + p1 + p2 + p3;
  }

  /** `base`, followed by `?` and the serialized pairs only when the serialization is not empty. */
  function WithQuery(base: string, params: seq<(string, string)>): string {
    var q := FormUrlEncoded.Serialize(params);
    base + (if q != "" then "?" + q else "")
  }

  lemma WithQueryEmpty(base: string)
    ensures WithQuery(base, []) == base
  {
    FormUrlEncoded.SerializeEmptyIff([]);
  }

  lemma WithQueryMarked(base: string, params: seq<(string, string)>)
    requires params != []
    ensures WithQuery(base, params) == (base + "?") + FormUrlEncoded.Serialize(params)
  {
    FormUrlEncoded.SerializeEmptyIff(params);
  }

  /** What follows the `?` is the serialization, and it parses back to the pairs. */
  lemma QueryAfterMark(base: string, params: seq<(string, string)>)
    ensures Text.StartsWith((base + "?") + FormUrlEncoded.Serialize(params), base + "?")
    ensures FormUrlEncoded.Parse(((base + "?") + FormUrlEncoded.Serialize(params))[|base| + 1..]) == Some(params)
  {
    var q := FormUrlEncoded.Serialize(params);
    assert ((base + "?") + q)[|base| + 1..] == q;
    FormUrlEncoded.ParseSerialize(params);
  }

  /**
   * The URL carries no `?` when there are no pairs; otherwise the part after
   * `?` decodes back to exactly the pairs that were appended.
   */
  lemma WithQueryParses(base: string, params: seq<(string, string)>)
    ensures params == [] ==> WithQuery(base, params) == base
    ensures params != [] ==>
      && Text.StartsWith(WithQuery(base, params), base + "?")
      && FormUrlEncoded.Parse(WithQuery(base, params)[|base| + 1..]) == Some(params)
  {
    if params == [] {
      WithQueryEmpty(base);
    } else {
      WithQueryMarked(base, params);
      QueryAfterMark(base, params);
    }
  }

  /** The request URL of `getFlashcardsWithFilters`. */
  function FilteredUrl(params: seq<(string, string)>): string {
    WithQuery(FlashcardsUrl, params)
  }

  /** `getFlashcardsWithFilters`: the URL it requests and the list it resolves to. */
  method GetFlashcardsWithFilters(filters: FilterOptions, reply: Reply<seq<RawRecord>>)
    returns (params: seq<(string, string)>, url: string, cards: seq<Flashcard>)
    ensures params == ParamsFrom(filters, 0)
    ensures params == [] ==> url == FlashcardsUrl
    ensures params != [] ==>
      && Text.StartsWith(url, FlashcardsUrl + "?")
      && FormUrlEncoded.Parse(url[|FlashcardsUrl| + 1..]) == Some(params)
    ensures cards == ReadFlashcardList(reply)
  {
    params := SearchParams(filters);
    url := FilteredUrl(params);
    WithQueryParses(FlashcardsUrl, params);
    cards := ReadFlashcardList(reply);
  }

  // ---------------------------------------------------------------------------
  // One flashcard, difficulty levels and categories
  // ---------------------------------------------------------------------------

  /** The URL of one flashcard: the id rendered in decimal after `/flashcards/`. */
  function FlashcardUrl(id: int): string {
    FlashcardsUrl + "/" + Text.IntToDecimal(id)
  }

  /** The server reads back the same id from the last path segment. */
  lemma FlashcardUrlRoundTrip(id: int)
    ensures Text.StartsWith(FlashcardUrl(id), FlashcardsUrl + "/")
    ensures Text.ParseInteger(FlashcardUrl(id)[|FlashcardsUrl| + 1..]) == Some(id)
  {
    assert FlashcardUrl(id) == (FlashcardsUrl + "/") + Text.IntToDecimal(id);
    assert FlashcardUrl(id)[|FlashcardsUrl| + 1..] == Text.IntToDecimal(id);
    Text.DecimalRoundTrip(id);
  }

  /** `getFlashcardById`: the normalised card, or `null` on any failure. */
  function GetFlashcardById(reply: Reply<RawRecord>): (r: Option<Flashcard>)
    ensures r.Some? <==> reply.Success?
    ensures r.Some? ==> r.value == NormalizeFlashcard(reply.body) && IsNormal(r.value)
  {
    match reply
    case Success(data) =>
      NormalizeTwice(data);
      Some(NormalizeFlashcard(data))
    case HttpError(_, _) => None
    case Threw(_) => None
  }

  /** `getDifficultyLevels`: the server's list, or the three default levels on any failure. */
  function GetDifficultyLevels(reply: Reply<seq<string>>): (r: seq<string>)
    ensures reply.Success? ==> r == reply.body
    ensures !reply.Success? ==> r == DefaultDifficultyLevels && |r| == 3
  {
    match reply
    case Success(levels) => levels
    case HttpError(_, _) => DefaultDifficultyLevels
    case Threw(_) => DefaultDifficultyLevels
  }

  /** `getCategories`: the server's list, or `[]` on any failure. */
  function GetCategories(reply: Reply<seq<string>>): (r: seq<string>)
    ensures reply.Success? ==> r == reply.body
    ensures !reply.Success? ==> r == []
  {
    match reply
    case Success(categories) => categories
    case HttpError(_, _) => []
    case Threw(_) => []
  }

  // ---------------------------------------------------------------------------
  // AuthService
  // ---------------------------------------------------------------------------

  /**
   * The shape shared by `login` and `register`: the decoded body on success;
   * otherwise the promise rejects, with the fixed `failure` message when the
   * status is not ok (the server's own text is discarded) and with the
   * original error when the request itself failed.
   */
  function AuthRequest(reply: Reply<AuthResponse>, failure: string): (r: Result<AuthResponse, string>)
    ensures r.Ok? <==> reply.Success?
    ensures reply.Success? ==> r.value == reply.body
    ensures reply.HttpError? ==> r.error == failure
    ensures reply.Threw? ==> r.error == reply.reason
  {
    match reply
    case Success(body) => Ok(body)
    case HttpError(_, _) => Err(failure)
    case Threw(reason) => Err(reason)
  }

  /** `AuthService.login`. */
  function Login(reply: Reply<AuthResponse>): (r: Result<AuthResponse, string>)
    ensures reply.HttpError? ==> r == Err("Login failed")
    ensures reply.Success? ==> r == Ok(reply.body)
    ensures reply.Threw? ==> r == Err(reply.reason)
  {
    AuthRequest(reply, "Login failed")
  }

  /** `AuthService.register`. */
  function Register(reply: Reply<AuthResponse>): (r: Result<AuthResponse, string>)
    ensures reply.HttpError? ==> r == Err("Registration failed")
    ensures reply.Success? ==> r == Ok(reply.body)
    ensures reply.Threw? ==> r == Err(reply.reason)
  {
    AuthRequest(reply, "Registration failed")
  }

  /** `AuthService.checkUsername`: the server's `available` flag, and `false` on any failure. */
  function CheckUsername(reply: Reply<bool>): (available: bool)
    ensures available <==> reply.Success? && reply.body
  {
    match reply
    case Success(flag) => flag
    case HttpError(_, _) => false
    case Threw(_) => false
  }
}
