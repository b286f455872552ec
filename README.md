# HelloDocs flashcards — a verified model of the client and the service core

HelloDocs is a flashcard application. It has two parts:

- a React Native client, which lists cards, shows them, flips them, filters them and keeps a guest's answers until sign-in;
- a Spring service, which stores cards and accounts and guards its endpoints with a JWT filter.

This project models, in Dafny, the logic these parts run, file by file:

- **Client session store** (`AuthContext`). This covers:
  - the capped guest-progress ledger (at most 50 records, never evicted);
  - its migration on sign-in;
  - the `login` / `register` / `logout` transitions of the signed-in user, the guest flag and the persisted `'user'` entry.
- **Client data shaping** (`FlashcardUtils`, `CardDisplay`, `FlashcardItem`, `FlashcardFlip`, `FlashcardDetail`). This covers:
  - normalisation of loosely typed server records;
  - comma-separated tag parsing;
  - the difficulty colours (the detail screen uses a different default);
  - the three-tag preview with "+N more";
  - the id lookup of the detail screen;
  - the flip and show-answer toggles.
- **Client requests** (`Api`, `ApiClient`, `FormUrlEncoded`). This covers:
  - the filter query string, built only from populated fields, in field order;
  - the `application/x-www-form-urlencoded` serialization of the WHATWG URL Standard (section 5.2), with a parser that undoes it;
  - the header record with its bearer credential;
  - the error messages;
  - the fail-soft fallback of every read.
- **Service** (`FlashcardEntity`, `FlashCardDto`, `FlashcardRepository`, `FlashcardService`, `UserService`, `JwtRequestFilter`). This covers:
  - the entity with its defaults, setters and update hook;
  - the DTO's Bean Validation constraints;
  - the repository finders as filters over a table;
  - create / update / delete / view-count operations as in-place table updates;
  - account registration and lookup;
  - the filter's routing and authentication decision.

Shared helpers:

- `Text`: JavaScript `trim`, `split`/`join`, ASCII case maps, decimal integers.
- `Wrappers`: `Option`, `Result`.
- `Http`: the outcome of a request.
- `Time`: abstract instants.
- `ServiceErrors`: the service's exceptions.

Network answers, storage writes, clocks, the token utilities and the password encoder are parameters of the operations that use them.

Stateful code is modelled as classes whose methods state the whole new state:

- `AuthContext.AuthProvider`;
- `FlashcardEntity.Flashcard`;
- `FlashcardService.FlashcardService`;
- `UserService.UserService`;
- `FlashcardFlip.FlipCard`;
- `FlashcardDetail.DetailScreen`;
- `JwtRequestFilter.SecurityContext`.

Expression-level code is modelled as functions, each with lemmas relating it to a partner: an inverse, a reference definition, or an invariant.

## Model

| member | source | states |
|---|---|---|
| AuthContext.Appended | src/main/resources/static/flashcard-app-frontend/context/AuthContext.tsx:75-89 | The old ledger is a prefix of the new one, which grows by at most one. It grows exactly when it held fewer than 50 records, and then the new record is last. A ledger within the limit stays within it. |
| AuthContext.AppendedAllKeepsEarliest | src/main/resources/static/flashcard-app-frontend/context/AuthContext.tsx:75-89 | Sequential calls keep the earliest records that fit: the result is the old ledger plus the first `50 - n` new records. Nothing is evicted and the limit is never exceeded. |
| AuthContext.MigrationNote | src/main/resources/static/flashcard-app-frontend/context/AuthContext.tsx:153-161 | It is empty for an empty ledger. After a successful migration it is " (", then the pre-migration count (which parses back to that count), then " progress records saved)". Otherwise it is " (some progress may not have been saved)". |
| AuthContext.AuthProvider.constructor | src/main/resources/static/flashcard-app-frontend/context/AuthContext.tsx:48-51 | It starts with no user, loading, an empty ledger and in guest mode. |
| AuthContext.AuthProvider.CheckStoredAuth | src/main/resources/static/flashcard-app-frontend/context/AuthContext.tsx:57-73 | A stored user is restored and ends guest mode. No stored user, or a failing read, leaves a guest. Loading ends in every case, and the ledger and the stored entry are untouched. |
| AuthContext.AuthProvider.CanAddMoreGuestProgress | src/main/resources/static/flashcard-app-frontend/context/AuthContext.tsx:95-97 | It is true exactly when the ledger holds fewer than 50 records. |
| AuthContext.AuthProvider.GetGuestProgressCount | src/main/resources/static/flashcard-app-frontend/context/AuthContext.tsx:99-101 | It is the number of records in the ledger. |
| AuthContext.AuthProvider.GetToken | src/main/resources/static/flashcard-app-frontend/context/AuthContext.tsx:229-231 | It is the user's token. It is null when there is no user or the token is empty. |
| AuthContext.AuthProvider.AddGuestProgress | src/main/resources/static/flashcard-app-frontend/context/AuthContext.tsx:75-89 | It returns true exactly below capacity. The new ledger is `Appended(old, record)`, so at capacity nothing changes. User, guest flag, loading and stored entry are untouched, and the 50-record invariant is kept. |
| AuthContext.AuthProvider.ClearGuestProgress | src/main/resources/static/flashcard-app-frontend/context/AuthContext.tsx:91-93 | The ledger is empty afterwards and nothing else changes. |
| AuthContext.AuthProvider.MigrateGuestProgress | src/main/resources/static/flashcard-app-frontend/context/AuthContext.tsx:103-128 | An empty ledger succeeds with no request. Otherwise the whole ledger is posted to the batch URL with "Bearer " + token. The result is true exactly on an ok answer, and the ledger is cleared exactly then; a refusal or an error keeps it intact. |
| AuthContext.AuthProvider.Authenticate | src/main/resources/static/flashcard-app-frontend/context/AuthContext.tsx:130-173 | A refused request rejects with the server text, or the fixed message when that text is empty; a failed request rejects with its error. Either way user, guest flag, ledger and storage are unchanged. On success the user (id = username) is signed in and guest mode ends. A non-empty ledger is cleared exactly when its migration succeeds. The user is persisted and the migration note is returned; a failing write rejects after sign-in. The migration request is the whole pre-sign-in ledger posted to the batch URL with "Bearer " + the new token, and there is none for an empty ledger or a failed sign-in. |
| AuthContext.AuthProvider.Login | src/main/resources/static/flashcard-app-frontend/context/AuthContext.tsx:130-173 | A refusal rejects with the server text, or "Login failed" when that text is empty; a failed request rejects with its error. Either way user, guest flag, ledger and storage are unchanged. Success signs in with id = username and ends guest mode. A non-empty ledger is cleared exactly when its migration succeeds. The user is persisted under 'user' and the result is the migration note of the pre-sign-in count; a failing write rejects after sign-in. The migration request is the whole pre-sign-in ledger posted with "Bearer " + the new token, and there is none for an empty ledger or a failed sign-in. The token is then available. |
| AuthContext.AuthProvider.Register | src/main/resources/static/flashcard-app-frontend/context/AuthContext.tsx:175-217 | The same as `Login`, with "Registration failed" as the fallback message. |
| AuthContext.AuthProvider.Logout | src/main/resources/static/flashcard-app-frontend/context/AuthContext.tsx:219-227 | There is no user afterwards, guest mode is on and no token is available, even with no user to start with. The stored entry is removed unless the removal fails. |
| FlashcardUtils.StringOr | src/main/resources/static/flashcard-app-frontend/utils/flashcardUtils.ts:14-19 | It is the string form of a truthy value and the fallback for a falsy one. |
| FlashcardUtils.NumberOrZero | src/main/resources/static/flashcard-app-frontend/utils/flashcardUtils.ts:13 | It is the numeric value when `Number` gives one, and 0 for NaN. |
| FlashcardUtils.NormalizeFlashcard | src/main/resources/static/flashcard-app-frontend/utils/flashcardUtils.ts:12-25 | `id` is `Number(id)`, or 0 when that is falsy: the number itself, the value of a numeric string, 0 for a missing, null, false, blank or non-numeric id, and 1 for true. The four text fields are the string of a truthy input or ''. `difficultyLevel` is the truthy input itself (not coerced) or 'BEGINNER', so it is always truthy. `language` is never empty and is 'java' for a falsy input. `exampleCode` and `createdAt` pass through. |
| FlashcardUtils.NormalizeFlashcards | src/main/resources/static/flashcard-app-frontend/utils/flashcardUtils.ts:28-30 | It keeps the length and normalises element by element, in order. |
| FlashcardUtils.NormalizeIdempotent | src/main/resources/static/flashcard-app-frontend/utils/flashcardUtils.ts:12-22 | A record in normal form, sent back as it is, normalises to itself. |
| FlashcardUtils.NormalizeTwice | src/main/resources/static/flashcard-app-frontend/utils/flashcardUtils.ts:12-22 | Normalisation always yields normal form, so normalising twice equals normalising once. |
| FlashcardUtils.StringIdAgreesWithNumber | src/main/resources/static/flashcard-app-frontend/utils/flashcardUtils.ts:13 | An id sent as its decimal string normalises to the same id as the number. |
| CardDisplay.TrimAll | src/main/resources/static/flashcard-app-frontend/components/FlashcardItem.tsx:18 | It has the same length, and each piece is trimmed in place. |
| CardDisplay.TrimAllConcat | src/main/resources/static/flashcard-app-frontend/components/FlashcardItem.tsx:18 | Trimming works piece by piece: the trimmed pieces of `a + b` are those of `a` followed by those of `b`. |
| CardDisplay.DropEmpty | src/main/resources/static/flashcard-app-frontend/components/FlashcardItem.tsx:18 | Every non-empty piece is kept, as often as it occurs, and nothing else: the kept pieces are the input's multiset with the empty string removed. With no empty pieces, the input is returned whole. |
| CardDisplay.DropEmptyConcat | src/main/resources/static/flashcard-app-frontend/components/FlashcardItem.tsx:18 | The filter keeps order: the kept pieces of `a + b` are those of `a` followed by those of `b`. |
| CardDisplay.ParseTags | src/main/resources/static/flashcard-app-frontend/components/FlashcardItem.tsx:17-19 | Every tag produced is non-empty, trimmed and free of commas. The tags are exactly the comma-split pieces, trimmed, with every non-empty one kept as often as it occurs and no other. |
| CardDisplay.ParseTagsOfJoin | src/main/resources/static/flashcard-app-frontend/components/FlashcardItem.tsx:17-19 | Any comma-separated text `p0,p1,...` parses to its pieces, trimmed, with the empty ones dropped, in their order. This includes inputs such as "java, ,oop" or "a,b,". |
| CardDisplay.ParseTagsConcat | src/main/resources/static/flashcard-app-frontend/components/FlashcardItem.tsx:17-19 | The tags of two comma-joined segments are the tags of the first followed by the tags of the second. |
| CardDisplay.EmptyTagsGuardRedundant | src/main/resources/static/flashcard-app-frontend/components/FlashcardItem.tsx:17-19 | Without the guard, split/trim/filter of '' would also give no tags. |
| CardDisplay.ParseJoinedTags | src/main/resources/static/flashcard-app-frontend/components/FlashcardItem.tsx:17-19 | Parsing tags joined with commas gives back exactly those tags, in order. |
| CardDisplay.DifficultyColor | src/main/resources/static/flashcard-app-frontend/components/FlashcardItem.tsx:21-28 | It is success, warning or error exactly for BEGINNER, INTERMEDIATE or ADVANCED, and textSecondary exactly for every other value. |
| CardDisplay.QuestionText | src/main/resources/static/flashcard-app-frontend/components/FlashcardItem.tsx:37 | It is never empty: the front text, or 'No question available'. |
| CardDisplay.AnswerText | src/main/resources/static/flashcard-app-frontend/components/FlashcardItem.tsx:72 | It is never empty: the back text, or 'No answer available'. |
| FlashcardItem.PreviewTags | src/main/resources/static/flashcard-app-frontend/components/FlashcardItem.tsx:58 | The shown tags are a prefix of at most 3 tags, all of them when there are at most 3. A hidden count exists exactly beyond 3, and shown plus hidden is the total. |
| FlashcardItem.MoreLabel | src/main/resources/static/flashcard-app-frontend/components/FlashcardItem.tsx:64 | The text is "+", then N, then " more", and N parses back out of it. |
| FlashcardItem.TagRow | src/main/resources/static/flashcard-app-frontend/components/FlashcardItem.tsx:56-67 | The row exists exactly when there are tags. The "+N more" label exists exactly when there are more than 3, with N = count − 3. |
| FlashcardItem.Render | src/main/resources/static/flashcard-app-frontend/components/FlashcardItem.tsx:30-79 | Question and answer are never empty. The badge follows `DifficultyColor`. The category badge appears exactly for a non-empty category. The tag preview and "+N more" come from the parsed tags. |
| FlashcardFlip.FlipTarget | src/main/resources/static/flashcard-app-frontend/components/FlashcardFlip.tsx:41 | The target is 180 exactly when the card is unflipped, and 0 exactly when it is flipped. |
| FlashcardFlip.ButtonFor | src/main/resources/static/flashcard-app-frontend/components/FlashcardFlip.tsx:211-215 | Unflipped shows "Show Answer" with eye; flipped shows "Show Question" with eye-off. |
| FlashcardFlip.ButtonMatchesAnimation | src/main/resources/static/flashcard-app-frontend/components/FlashcardFlip.tsx:208-215 | The caption names the side the next flip turns to: "Show Answer" exactly when the target is 180. |
| FlashcardFlip.ShowsNavigation | src/main/resources/static/flashcard-app-frontend/components/FlashcardFlip.tsx:189-206 | The controls render unless the prop is explicitly false, because an absent prop defaults to true. |
| FlashcardFlip.FacesOf | src/main/resources/static/flashcard-app-frontend/components/FlashcardFlip.tsx:86-169 | The border colour and the raw difficulty badge, the fallback texts, the category row (exactly for a non-empty category, showing it) and the parsed tags. |
| FlashcardFlip.FlipCard.constructor | src/main/resources/static/flashcard-app-frontend/components/FlashcardFlip.tsx:30 | A card starts unflipped. |
| FlashcardFlip.FlipCard.Flip | src/main/resources/static/flashcard-app-frontend/components/FlashcardFlip.tsx:39-46 | `isFlipped` is negated, so two flips restore it. The animation heads to `FlipTarget` of the old side, i.e. 180 exactly when the card is now flipped. |
| FlashcardDetail.FindById | src/main/resources/static/flashcard-app-frontend/app/flashcard-detail.tsx:24 | The result is the first card whose decimal id equals the route id. It is none exactly when no card matches. |
| FlashcardDetail.FindByRenderedId | src/main/resources/static/flashcard-app-frontend/app/flashcard-detail.tsx:24 | A canonical decimal route id finds a card exactly when a card has that numeric id, and the card found has it. |
| FlashcardDetail.NonCanonicalIdNeverMatches | src/main/resources/static/flashcard-app-frontend/app/flashcard-detail.tsx:24 | A route id such as "007" or "+7" selects nothing, even when a card with id 7 exists. |
| FlashcardDetail.DetailColor | src/main/resources/static/flashcard-app-frontend/app/flashcard-detail.tsx:63-68 | BEGINNER gives success and INTERMEDIATE gives warning. Every other value, unknown ones included, gives error. |
| FlashcardDetail.DetailColorDiffersOffScale | src/main/resources/static/flashcard-app-frontend/app/flashcard-detail.tsx:63-68 | The detail screen and the components disagree exactly on unknown levels: error versus textSecondary. |
| FlashcardDetail.ViewOf | src/main/resources/static/flashcard-app-frontend/app/flashcard-detail.tsx:33-123 | A spinner shows exactly while loading, and "Flashcard not found" exactly when loading found nothing. Otherwise the view carries the detail colour and the level text. The question is the front text. The answer (the back text) appears exactly while `showAnswer` is true, and the toggle label and icon follow it ("Hide Answer"/eye-off or "Show Answer"/eye). The category, example-code and language sections appear exactly for truthy fields and show those fields' values. The tags are the parsed tags. |
| FlashcardDetail.DetailScreen.constructor | src/main/resources/static/flashcard-app-frontend/app/flashcard-detail.tsx:11-15 | It opens loading, with no card and the answer hidden. |
| FlashcardDetail.DetailScreen.LoadFlashcard | src/main/resources/static/flashcard-app-frontend/app/flashcard-detail.tsx:21-31 | The card is `FindById` over the fetched list (empty on failure). Loading is false afterwards whatever the outcome. |
| FlashcardDetail.DetailScreen.ToggleAnswer | src/main/resources/static/flashcard-app-frontend/app/flashcard-detail.tsx:83 | `showAnswer` is negated and nothing else changes. |
| Api.ReadFlashcardList | src/main/resources/static/flashcard-app-frontend/services/api.ts:8-31 | Success gives one normalised card per record received, in order. A refused or failed request gives []. |
| Api.ParamsSound | src/main/resources/static/flashcard-app-frontend/services/api.ts:35-39 | Every query pair is the key and value of a truthy filter field. |
| Api.ParamsComplete | src/main/resources/static/flashcard-app-frontend/services/api.ts:35-39 | Every truthy filter field contributes its pair. |
| Api.ParamsOrdered | src/main/resources/static/flashcard-app-frontend/services/api.ts:35-39 | Pairs follow the order difficultyLevel, category, language, tag, so no key repeats. |
| Api.ParamsEmptyIff | src/main/resources/static/flashcard-app-frontend/services/api.ts:35-41 | The query is empty exactly when no filter field is truthy. |
| Api.SearchParams | src/main/resources/static/flashcard-app-frontend/services/api.ts:35-39 | The successive appends build exactly the reference pair list `ParamsFrom(filters, 0)`. |
| Api.WithQueryParses | src/main/resources/static/flashcard-app-frontend/services/api.ts:41 | With no pairs the URL has no '?'. Otherwise it is the base plus '?', and what follows parses back to exactly the pairs. |
| Api.GetFlashcardsWithFilters | src/main/resources/static/flashcard-app-frontend/services/api.ts:33-53 | The pairs are the reference list. The URL is bare when there are none, and otherwise carries a query that decodes to them. The cards are `ReadFlashcardList` of the answer. |
| Api.FlashcardUrlRoundTrip | src/main/resources/static/flashcard-app-frontend/services/api.ts:57 | The last path segment of a card's URL parses back to its id. |
| Api.GetFlashcardById | src/main/resources/static/flashcard-app-frontend/services/api.ts:55-67 | It is a card exactly on success, and then the normalised record, which is in normal form. Otherwise null. |
| Api.GetDifficultyLevels | src/main/resources/static/flashcard-app-frontend/services/api.ts:69-78 | The server's list, or exactly ['BEGINNER', 'INTERMEDIATE', 'ADVANCED'] on any failure. |
| Api.GetCategories | src/main/resources/static/flashcard-app-frontend/services/api.ts:80-89 | The server's list, or [] on any failure. |
| Api.AuthRequest | src/main/resources/static/flashcard-app-frontend/services/api.ts:92-106 | It resolves exactly on success, with the body. A refused request rejects with the fixed message and the server text is discarded. A failed request rejects with its own error. |
| Api.Login | src/main/resources/static/flashcard-app-frontend/services/api.ts:92-106 | A refusal rejects with "Login failed"; otherwise as `AuthRequest`. |
| Api.Register | src/main/resources/static/flashcard-app-frontend/services/api.ts:108-122 | A refusal rejects with "Registration failed"; otherwise as `AuthRequest`. |
| Api.CheckUsername | src/main/resources/static/flashcard-app-frontend/services/api.ts:124-134 | True exactly when the request succeeds and the server says `available`. |
| ApiClient.AuthHeadersDetermined | src/main/resources/static/flashcard-app-frontend/services/apiClient.ts:10-16 | The header description admits exactly one record. |
| ApiClient.BuildHeaders | src/main/resources/static/flashcard-app-frontend/services/apiClient.ts:10-16 | The keys are Content-Type plus Authorization exactly when the token is truthy. The values are application/json and "Bearer " + token. |
| ApiClient.ErrorMessage | src/main/resources/static/flashcard-app-frontend/services/apiClient.ts:25 | It is never empty: the response text, or "HTTP " + status when the text is empty. |
| ApiClient.ErrorMessageCarriesStatus | src/main/resources/static/flashcard-app-frontend/services/apiClient.ts:25 | The status parses back out of "HTTP <status>". |
| ApiClient.FetchWithAuth | src/main/resources/static/flashcard-app-frontend/services/apiClient.ts:7-29 | Method and body of the options are kept. The caller's headers are replaced by the authenticated ones. An ok response is returned; a refusal rejects with `ErrorMessage`; a failure rejects with its error. |
| ApiClient.Get | src/main/resources/static/flashcard-app-frontend/services/apiClient.ts:31-33 | No method and no body, with the authenticated headers. The ok response is returned unchanged; a refusal rejects with the server text or "HTTP " + status, and a failure rejects with its own error. |
| ApiClient.Post | src/main/resources/static/flashcard-app-frontend/services/apiClient.ts:35-40 | POST, with the serialised data as the body and the authenticated headers. The ok response is returned unchanged; a refusal rejects with the server text or "HTTP " + status, and a failure rejects with its own error. |
| ApiClient.Put | src/main/resources/static/flashcard-app-frontend/services/apiClient.ts:42-47 | PUT, with the serialised data as the body and the authenticated headers. The ok response is returned unchanged; a refusal rejects with the server text or "HTTP " + status, and a failure rejects with its own error. |
| ApiClient.Delete | src/main/resources/static/flashcard-app-frontend/services/apiClient.ts:49-53 | DELETE, with no body and the authenticated headers. The ok response is returned unchanged; a refusal rejects with the server text or "HTTP " + status, and a failure rejects with its own error. |
| FormUrlEncoded.EncodeComponent | src/main/resources/static/flashcard-app-frontend/services/api.ts:41 | The output uses only the characters a form-encoded component may contain: ASCII letters, digits, `*-._`, '+' and '%'. Hex digits of escapes are among them. |
| FormUrlEncoded.DecodeEncode | src/main/resources/static/flashcard-app-frontend/services/api.ts:41 | Percent-decoding undoes the encoding of any string, UTF-8 included. |
| FormUrlEncoded.SerializeEmptyIff | src/main/resources/static/flashcard-app-frontend/services/api.ts:41 | `params.toString()` is empty exactly when there are no pairs. |
| FormUrlEncoded.ParseSerialize | src/main/resources/static/flashcard-app-frontend/services/api.ts:41 | Parsing a serialization gives back exactly the pairs. |
| FlashcardEntity.AddInt32 | src/main/java/com/hellodocs/app/service/FlashcardService.java:115 | Java `int` addition: the sum when it fits, otherwise wrapped by 2^32. |
| FlashcardEntity.IncrementWrapsAtMax | src/main/java/com/hellodocs/app/service/FlashcardService.java:115 | Adding 1 to 2147483647 gives −2147483648. |
| FlashcardEntity.NewRow | src/main/java/com/hellodocs/app/entity/Flashcard.java:28-54 | language "java", both counters 0, createdAt the construction instant, and every other field null, updatedAt included. |
| FlashcardEntity.Flashcard.constructor | src/main/java/com/hellodocs/app/entity/Flashcard.java:52-54 | The instance's record is `NewRow(now)`. |
| FlashcardEntity.Flashcard.WithContent | src/main/java/com/hellodocs/app/entity/Flashcard.java:56-63 | The four content fields are set over the defaults. |
| FlashcardEntity.Flashcard.SetId | src/main/java/com/hellodocs/app/entity/Flashcard.java:69-71 | Only `id` changes. |
| FlashcardEntity.Flashcard.SetFrontContent | src/main/java/com/hellodocs/app/entity/Flashcard.java:77-79 | Only `frontContent` changes. |
| FlashcardEntity.Flashcard.SetBackContent | src/main/java/com/hellodocs/app/entity/Flashcard.java:85-87 | Only `backContent` changes. |
| FlashcardEntity.Flashcard.SetCategory | src/main/java/com/hellodocs/app/entity/Flashcard.java:93-95 | Only `category` changes. |
| FlashcardEntity.Flashcard.SetDifficultyLevel | src/main/java/com/hellodocs/app/entity/Flashcard.java:101-103 | Only `difficultyLevel` changes. |
| FlashcardEntity.Flashcard.SetLanguage | src/main/java/com/hellodocs/app/entity/Flashcard.java:109-111 | Only `language` changes. |
| FlashcardEntity.Flashcard.SetExampleCode | src/main/java/com/hellodocs/app/entity/Flashcard.java:117-119 | Only `exampleCode` changes. |
| FlashcardEntity.Flashcard.SetTags | src/main/java/com/hellodocs/app/entity/Flashcard.java:125-127 | Only `tags` changes. |
| FlashcardEntity.Flashcard.SetViewCount | src/main/java/com/hellodocs/app/entity/Flashcard.java:133-135 | Only `viewCount` changes. |
| FlashcardEntity.Flashcard.SetMasteryScore | src/main/java/com/hellodocs/app/entity/Flashcard.java:141-143 | Only `masteryScore` changes. |
| FlashcardEntity.Flashcard.SetCreatedAt | src/main/java/com/hellodocs/app/entity/Flashcard.java:149-151 | Only `createdAt` changes. |
| FlashcardEntity.Flashcard.SetUpdatedAt | src/main/java/com/hellodocs/app/entity/Flashcard.java:157-159 | Only `updatedAt` changes. |
| FlashcardEntity.Flashcard.SetUserId | src/main/java/com/hellodocs/app/entity/Flashcard.java:165-167 | Only the owner changes. |
| FlashcardEntity.Flashcard.OnUpdate | src/main/java/com/hellodocs/app/entity/Flashcard.java:169-172 | Only `updatedAt` changes, to the instant given. |
| FlashCardDto.Utf16Length | src/main/java/com/hellodocs/app/dto/FlashCardDTO.java:11 | Java's length lies between the character count and twice it. |
| FlashCardDto.Utf16LengthOfBmp | src/main/java/com/hellodocs/app/dto/FlashCardDTO.java:11 | Without supplementary characters, Java's length is the character count. |
| FlashCardDto.Violations | src/main/java/com/hellodocs/app/dto/FlashCardDTO.java:10-22 | Each message is reported exactly when its constraint fails: front, back, category and difficulty must not be blank; front is at most 500 and back at most 2000 UTF-16 units. No other message is reported. |
| FlashCardDto.ValidIff | src/main/java/com/hellodocs/app/dto/FlashCardDTO.java:10-22 | A DTO is valid exactly when the four required fields are non-blank and both lengths are within bounds. |
| FlashCardDto.UnconstrainedFields | src/main/java/com/hellodocs/app/dto/FlashCardDTO.java:24-28 | Changing id, exampleCode, tags or language never changes the violations. |
| FlashCardDto.FrontSizeBoundary | src/main/java/com/hellodocs/app/dto/FlashCardDTO.java:10-12 | For BMP text the length message appears exactly beyond 500 characters, so exactly 500 is accepted despite the "less than" wording. |
| FlashCardDto.BackSizeBoundary | src/main/java/com/hellodocs/app/dto/FlashCardDTO.java:14-16 | For BMP text the length message appears exactly beyond 2000 characters. |
| FlashCardDto.EmptyDtoViolations | src/main/java/com/hellodocs/app/dto/FlashCardDTO.java:8-28 | A new DTO breaks exactly the four required-field constraints. |
| FlashcardRepository.FindByDifficultyLevel | src/main/java/com/hellodocs/app/repository/FlashcardRepository.java:14 | Exactly the stored records whose level equals the argument, unchanged and under their keys. |
| FlashcardRepository.FindByCategory | src/main/java/com/hellodocs/app/repository/FlashcardRepository.java:16 | Exactly the stored records whose category equals the argument. |
| FlashcardRepository.FindByLanguage | src/main/java/com/hellodocs/app/repository/FlashcardRepository.java:18 | Exactly the stored records whose language equals the argument. |
| FlashcardRepository.AndIsIntersection | src/main/java/com/hellodocs/app/repository/FlashcardRepository.java:20 | The combined finder is the intersection of the two single-column finders. |
| FlashcardRepository.FindByTag | src/main/java/com/hellodocs/app/repository/FlashcardRepository.java:22-23 | Exactly the records whose lower-cased tags contain the lower-cased argument. |
| FlashcardRepository.FindByTagIgnoresCase | src/main/java/com/hellodocs/app/repository/FlashcardRepository.java:22-23 | Arguments that differ only in ASCII case find the same records. |
| FlashcardRepository.FindByTagEmpty | src/main/java/com/hellodocs/app/repository/FlashcardRepository.java:22-23 | The empty argument finds exactly the records with non-null tags. |
| FlashcardRepository.TagMatchIsSubstring | src/main/java/com/hellodocs/app/repository/FlashcardRepository.java:22-23 | A record whose tags contain the argument verbatim is always found. |
| FlashcardRepository.FindAllCategories | src/main/java/com/hellodocs/app/repository/FlashcardRepository.java:25-26 | A set with no duplicates, containing a value exactly when some record has that category. |
| FlashcardRepository.FindAllDifficultyLevels | src/main/java/com/hellodocs/app/repository/FlashcardRepository.java:28-29 | A set with no duplicates, containing a value exactly when some record has that level. |
| FlashcardRepository.ListedCategoriesAreFound | src/main/java/com/hellodocs/app/repository/FlashcardRepository.java:25-26 | Every listed category finds at least one record through `findByCategory`. |
| FlashcardService.NotFound | src/main/java/com/hellodocs/app/service/FlashcardService.java:36 | A not-found error "Flashcard not found with id " + id, and the id parses back out of it. |
| FlashcardService.DtoRoundTrip | src/main/java/com/hellodocs/app/service/FlashcardService.java:126-151 | `convertToDto(convertToEntity(dto))` is `dto`. |
| FlashcardService.EntityRoundTrip | src/main/java/com/hellodocs/app/service/FlashcardService.java:126-151 | `convertToEntity(convertToDto(f))` agrees with `f` on the eight shared fields. It carries a new instance's counters, creation time and no owner. |
| FlashcardService.ConvertToEntity | src/main/java/com/hellodocs/app/service/FlashcardService.java:140-151 | A fresh instance whose record is the DTO's fields over the defaults. |
| FlashcardService.ConvertAll | src/main/java/com/hellodocs/app/service/FlashcardService.java:27-32 | One DTO per stored record, under the same key. |
| FlashcardService.CreatedRow | src/main/java/com/hellodocs/app/service/FlashcardService.java:70-85 | The level is upper-cased and the other six content fields are copied. The row gets the new id and the owner, zero counters, and a creation time with no update time. |
| FlashcardService.EditedRow | src/main/java/com/hellodocs/app/service/FlashcardService.java:88-102 | The seven editable fields are replaced, the level upper-cased. Id, counters, timestamps and owner are kept. |
| FlashcardService.EditWithOwnDtoChangesNothing | src/main/java/com/hellodocs/app/service/FlashcardService.java:88-102 | Editing a stored record with its own DTO changes no value. |
| FlashcardService.Flushed | src/main/java/com/hellodocs/app/service/FlashcardService.java:100 | Saving stamps `updatedAt` only when some value changed. |
| FlashcardService.FlashcardService.constructor | src/main/java/com/hellodocs/app/service/FlashcardService.java:20-24 | It starts with an empty table over the given user service. |
| FlashcardService.FlashcardService.GetAllFlashCards | src/main/java/com/hellodocs/app/service/FlashcardService.java:27-32 | Exactly one DTO per stored record. |
| FlashcardService.FlashcardService.GetFlashcardById | src/main/java/com/hellodocs/app/service/FlashcardService.java:34-38 | The record's DTO when the id is stored, and `NotFound(id)` otherwise. |
| FlashcardService.FlashcardService.GetFlashcardByDifficulty | src/main/java/com/hellodocs/app/service/FlashcardService.java:40-45 | Exactly the records whose level is the argument upper-cased. |
| FlashcardService.FlashcardService.DifficultyQueryFindsAnyCase | src/main/java/com/hellodocs/app/service/FlashcardService.java:40-45 | A stored record is found by its level written in any ASCII case. |
| FlashcardService.FlashcardService.GetFlashcardByCategory | src/main/java/com/hellodocs/app/service/FlashcardService.java:47-52 | Exactly the records with that category. |
| FlashcardService.FlashcardService.GetFlashcardByDifficultyAndCategory | src/main/java/com/hellodocs/app/service/FlashcardService.java:54-59 | Exactly the records found by both single-column queries. |
| FlashcardService.FlashcardService.GetAllCategories | src/main/java/com/hellodocs/app/service/FlashcardService.java:61-63 | Each category in use, once. |
| FlashcardService.FlashcardService.GetAllDifficultyLevel | src/main/java/com/hellodocs/app/service/FlashcardService.java:65-67 | Each level in use, once. |
| FlashcardService.FlashcardService.ListsHoldNoNull | src/main/java/com/hellodocs/app/service/FlashcardService.java:61-67 | In a valid table neither list contains null, and every level listed is upper-case. |
| FlashcardService.FlashcardService.Load | src/main/java/com/hellodocs/app/service/FlashcardService.java:89-90 | A fresh managed instance holding exactly the stored record. |
| FlashcardService.FlashcardService.CreateFlashcard | src/main/java/com/hellodocs/app/service/FlashcardService.java:69-85 | An unknown owner gives the lookup's error. A null level gives a null-pointer error. A null NOT NULL column is a data-integrity error. Any error leaves the table unchanged. Otherwise exactly one record, `CreatedRow`, is added under a fresh id and its DTO is returned. Table invariants are kept. |
| FlashcardService.FlashcardService.UpdateFlashcard | src/main/java/com/hellodocs/app/service/FlashcardService.java:87-102 | A missing id gives `NotFound`; the other errors are as for create, and no error changes anything. Otherwise only that record changes, to `Flushed(old, EditedRow(old, dto))`. |
| FlashcardService.FlashcardService.DeleteFlashcard | src/main/java/com/hellodocs/app/service/FlashcardService.java:104-109 | A missing id gives `NotFound` and nothing changes. Otherwise exactly that record is removed. |
| FlashcardService.FlashcardService.IncrementViewCount | src/main/java/com/hellodocs/app/service/FlashcardService.java:111-118 | A missing id gives `NotFound` and nothing changes. Otherwise only that record's view count changes, by one with `int` wrap-around, and `updatedAt` is stamped. |
| UserService.RegistrationErrorAsWritten | src/main/java/com/hellodocs/app/service/UserService.java:33-40 | As written: refused for a taken username, and otherwise refused exactly when the e-mail is some account's username. |
| UserService.RegistrationError | src/main/java/com/hellodocs/app/service/UserService.java:33-40 | As intended: "Username is already taken" for a taken username, then "Email is already registered" for a stored e-mail. Accepted exactly when neither is in use. |
| UserService.AsWrittenAdmitsDuplicateEmail | src/main/java/com/hellodocs/app/service/UserService.java:38-40 | As written, a second account with an e-mail already on file is accepted. |
| UserService.AsWrittenRefusesFreshEmail | src/main/java/com/hellodocs/app/service/UserService.java:38-40 | As written, an unused e-mail is refused because it equals an account's username. |
| UserService.RegistrationKeepsKeysUnique | src/main/java/com/hellodocs/app/service/UserService.java:33-47 | The intended checks keep usernames and e-mails unique when the new account is stored. |
| UserService.UserService.FindByUsername | src/main/java/com/hellodocs/app/service/UserService.java:22-25 | It returns the account when exactly one has the username. None gives "User not found with username: +" + name; two or more give a result-size error. |
| UserService.UserService.FindByEmail | src/main/java/com/hellodocs/app/service/UserService.java:27-30 | It returns the account when exactly one has the e-mail. None gives "User not found with email: " + email; two or more give a result-size error. |
| UserService.UserService.FindByUsernameFound | src/main/java/com/hellodocs/app/service/UserService.java:59-61 | In a valid table, lookup by username succeeds exactly when `existByUsername` holds. |
| UserService.UserService.FindByEmailFound | src/main/java/com/hellodocs/app/service/UserService.java:63-65 | In a valid table, lookup by e-mail succeeds exactly when `existByEmail` holds. |
| UserService.UserService.RegisterUser | src/main/java/com/hellodocs/app/service/UserService.java:32-49 | A refused registration returns the error and stores nothing. Otherwise exactly one account is added under a fresh id, with the username, e-mail and encoded password. |
| UserService.UserService.UpdateLastLogin | src/main/java/com/hellodocs/app/service/UserService.java:51-56 | An unknown user gives the lookup's error and nothing changes. Otherwise only that account's last login changes. |
| JwtRequestFilter.RouteOf | src/main/java/com/hellodocs/app/security/JwtRequestFilter.java:37-54 | OPTIONS passes first. Then paths starting with "/api/auth", then paths starting with "/api/flashcards", pass unchecked. Everything else is protected. |
| JwtRequestFilter.PublicPrefixIsNotASegment | src/main/java/com/hellodocs/app/security/JwtRequestFilter.java:44-54 | "/api/authority" and "/api/flashcardsx/admin" pass unchecked, because the tests are plain prefix tests. |
| JwtRequestFilter.BearerToken | src/main/java/com/hellodocs/app/security/JwtRequestFilter.java:62-63 | There is a token exactly when the header starts with "Bearer ", and then the header is "Bearer " + token. |
| JwtRequestFilter.BearerRoundTrip | src/main/java/com/hellodocs/app/security/JwtRequestFilter.java:62-63 | Reading "Bearer " + t gives back t. |
| JwtRequestFilter.ClientCredentialIsRead | src/main/java/com/hellodocs/app/security/JwtRequestFilter.java:62-63 | The Authorization header the client builds yields exactly the client's token. |
| JwtRequestFilter.Installed | src/main/java/com/hellodocs/app/security/JwtRequestFilter.java:57-89 | An authentication is installed exactly when all of these hold: the route is protected; there is a bearer token; the username is extracted without an exception; the context had none; the account loads; the token validates. It carries the loaded account and its authorities. |
| JwtRequestFilter.PublicRoutesNeverAuthenticate | src/main/java/com/hellodocs/app/security/JwtRequestFilter.java:37-54 | Early-exit routes, and requests without a header, never gain an authentication. |
| JwtRequestFilter.DoFilterInternal | src/main/java/com/hellodocs/app/security/JwtRequestFilter.java:27-95 | `filterChain.doFilter` is called exactly once on every path, exceptions included. The context gains `Installed`'s authentication, if any, and is otherwise unchanged. |

## Left out

- Api.ReadFlashcardList: `Reply<seq<RawRecord>>` cannot carry a JSON body that is not an array, or an array with a `null` element. In the source both make `normalizeFlashcards` throw, and the read returns []. In the model such a body is the `Threw` outcome, which gives the same [].
- I/O is not modelled. `fetch`, `response.json()`/`text()`, AsyncStorage, `JSON.stringify`, the Spring Data repositories and the database are outcome parameters (`Http.Reply`, failure flags, error strings) or maps.
- Clocks are not modelled. `new Date()` and `LocalDateTime.now()` are `Time.Timestamp` values passed in.
- `JwtUtil.extractUsername`, `validateToken`, `UserDetailsService.loadUserByUsername` and `PasswordEncoder.encode` are not part of this model. They are function parameters, and an exception is `Throws`.
- React render batching is not modelled. Two `addGuestProgress` calls in one render tick both read the same snapshot and could together exceed 50. The model runs calls one after another.
- The unmounted-component and `useEffect` scheduling of the screens is not modelled. `loadFlashcard` runs once per construction.
- FlashcardUtils.NormalizeFlashcard: `Number()` is modelled on integer values only. After trimming, a string counts as numeric only when it is an optional '+' or '-' followed by decimal digits.
- FlashcardUtils.NormalizeFlashcard: strings that JavaScript also reads as numbers are treated as NaN, so their id is 0. This covers hex, binary and octal prefixes ("0x1F", "0b11"), exponent and decimal-point forms ("1e3", "2.0") and "Infinity". JavaScript would give 31, 3, 1000, 2 and Infinity.
- FlashcardUtils.NormalizeFlashcard: digit runs above 2^53 are read exactly, where JavaScript rounds them to a double. Fractional numbers are not modelled.
- FlashcardUtils.JsValue: array and object field values are not modelled. `String(['java','oop'])` is "java,oop" and `String({})` is "[object Object]" in the source's coercions. A field holding such a value is outside the model.
- FlashcardUtils.ToJsString: numbers are rendered as decimal integers; JavaScript's float formatting is not modelled.
- Text.Upper / Text.Lower: Java's `toUpperCase` and SQL `LOWER` are modelled on ASCII letters only. Locale-dependent and non-ASCII case mapping is not modelled.
- FlashcardRepository.FindByTag: `%` and `_` in the argument are treated as literal characters, not `LIKE` wildcards. Column collation is not modelled.
- Query results are maps and sets keyed by id, so the order of `List` results is not modelled. Neither are `getFlashcardsPage` paging and `Pageable` sorting (FlashcardService.java:120-123).
- Column length limits (`length = 1000`) and database errors other than a NULL in a NOT NULL column are not modelled.
- FlashcardService.FlashcardService.CreateFlashcard: the owner is stored as the user's id (the `user_id` join column), not as a `User` object graph.
- UserService.UserService.RegisterUser: uses the intended e-mail check. The as-written check is `UserService.RegistrationErrorAsWritten` (see Findings).
- `User.java` and the user role are not part of this model. An account is id, username, e-mail, encoded password and last login.
- The FlashCardDTO getters and setters are modelled on values: the DTO is a datatype, and its setters are record updates.
- `WebAuthenticationDetailsSource` details and all logging are not modelled.
- The controllers, `UserProgress`, the splash screen, layouts, styles and colour constants are not part of this model. Colours are the names of the palette entries.
- The flip rotation interpolation and the animation timing are not modelled, only the target value.
- The endpoint mismatches between client and server are not modelled. The server ignores the filter query, and the client asks for `/flashcards/difficulties` where the server serves `/difficulty-levels`. The client is modelled as written.

## Findings

| source | as written | input that shows it | evidently intended | confidence | as-written member | corrected member |
|---|---|---|---|---|---|---|
| src/main/java/com/hellodocs/app/service/UserService.java:38-40 | The e-mail duplicate check calls `existsByUsername(email)`, so it compares the new e-mail with stored usernames | Stored: user "alice" with e-mail "a@x.io". Registering "bob" with "a@x.io" is accepted. Stored: a user named "a@x.io". Registering "carol" with that unused e-mail is refused. | `existsByEmail(email)`, refusing an e-mail already on file with "Email is already registered" | not executed | UserService.RegistrationErrorAsWritten (exhibited by UserService.AsWrittenAdmitsDuplicateEmail and UserService.AsWrittenRefusesFreshEmail) | UserService.RegistrationError (proved to keep usernames and e-mails unique by UserService.RegistrationKeepsKeysUnique; used by UserService.UserService.RegisterUser) |
