# Flashcard quiz: a verified model of its core

The application is a small flashcard trainer with three layers:

- A Streamlit page (`frontend/app.py`). It keeps a quiz session in `st.session_state` — the card list, `current_index`, `score`, `answered`, `show_result` and `last_correct` — and changes it when the user presses Submit, Next and Restart. It also has an add-card form and a progress page that derives correct and incorrect counts.
- Three domain managers (`src/logic.py`). The three add methods check their inputs first; every method calls the data layer and turns the result into a `{"Success": ..., "data"|"message": ...}` envelope.
- A data layer (`src/db.py`). Its `DatabaseManager` inserts into, deletes from and selects from three tables of a hosted store: `flashcards`, `progress` and `uploaded_pdfs`.

The model has six modules:

- `Options`: the `Option` type.
- `Text`: ASCII `str.strip()` and `str.lower()`, and the answer normalisation `strip().lower()` the quiz compares with.
- `Ordering`: filtering rows by a predicate, and a stable sort on an integer key in either direction. These are the store's `.eq` and `.order`.
- `Database`: the row types; the selects as functions of a table; `get_wrong_attempts` and its set semantics; and the class `DatabaseManager`, whose three tables are `seq` fields that the insert and delete methods reassign.
- `Logic`: the input checks and envelope rules as functions, and the three managers as classes sharing one `DatabaseManager`.
- `Quiz`: the class `QuizSession`, with its invariant `0 <= score <= answered && 0 <= current_index <= |cards|`; the page it shows; the add-form check; and the progress counts.

Two things the store assigns are passed in as a `Stamp` parameter of each insert: the row id and the timestamp (`created_at`, `attempted_at`, `uploaded_at`).

## Model

| member | source | states |
|---|---|---|
| Text.TrimStart | frontend/app.py:80 | the leading characters that were dropped are all whitespace, and the result does not start with whitespace |
| Text.TrimEnd | frontend/app.py:80 | the trailing characters that were dropped are all whitespace, and the result does not end with whitespace |
| Text.TrimStartIsSuffix | frontend/app.py:80 | the result of dropping leading whitespace is the suffix of the input that remains |
| Text.TrimEndIsPrefix | frontend/app.py:80 | the result of dropping trailing whitespace is the prefix of the input that remains |
| Text.StripIsTrimmedSlice | frontend/app.py:80 | `strip()` returns a slice of the input, every character cut from either end is whitespace, and the result begins and ends with non-whitespace |
| Text.StripIgnoresPadding | frontend/app.py:80 | surrounding whitespace does not change `strip()` |
| Text.StripIdempotent | frontend/app.py:80 | stripping twice gives the same text as stripping once |
| Text.Lower | frontend/app.py:80 | `lower()` keeps the length and folds each character by itself |
| Text.StripLower | frontend/app.py:80 | stripping and lower-casing commute |
| Text.NormaliseIdempotent | frontend/app.py:80 | normalising an answer twice gives the same text as normalising it once |
| Text.MatchIgnoresCase | frontend/app.py:80 | lower-casing either answer does not change whether the two match |
| Text.MatchIgnoresPadding | frontend/app.py:80 | whitespace around the typed answer does not change whether it matches |
| Text.ParisExample | frontend/app.py:80 | " paris " normalises to "paris" and matches the answer "Paris" |
| Text.BlankIffAllSpace | frontend/app.py:112 | `s.strip()` is falsy exactly when every character of `s` is whitespace |
| Ordering.Filter | src/db.py:33 | `.eq` keeps at most the table's rows, and every row it keeps satisfies the condition |
| Ordering.FilterMembers | src/db.py:33 | a row is selected by `.eq` exactly when it is in the table and satisfies the condition |
| Ordering.FilterPartition | src/db.py:42 | the rows a delete removes and the rows it keeps make up the old table, with nothing lost, duplicated or added |
| Ordering.FilterNoneKeepsRest | src/db.py:42 | a delete that matches no row leaves the table as it was |
| Ordering.InsertBySorted | src/db.py:31 | inserting a row into an ordered list keeps it ordered |
| Ordering.SortBy | src/db.py:31 | `.order(column)` returns a permutation of its input that is ordered on the column, ascending or descending |
| Database.SelectFlashcards | src/db.py:29-35 | `get_flashcards(topic)` is ordered by `created_at` ascending, and its rows are a permutation of the topic's rows |
| Database.SelectFlashcardsRows | src/db.py:29-35 | with a truthy topic, exactly the rows of that topic are returned; with `None` or `""`, every row of the table is returned |
| Database.SelectFlashcardById | src/db.py:37-39 | `get_flashcard_by_id(id)` returns exactly the rows with that id, and returns nothing exactly when no row has it |
| Database.SelectProgress | src/db.py:53-55 | `get_progress()` is every attempt, ordered by `attempted_at` descending |
| Database.SelectUploadedPdfs | src/db.py:70-72 | `get_uploaded_pdfs()` is every record, ordered by `uploaded_at` descending |
| Database.FlashcardIds | src/db.py:59 | helper of `Database.WrongAttempts`: the projection on `flashcard_id` keeps one entry per row, in row order |
| Database.Distinct | src/db.py:59 | the set comprehension keeps each value once and keeps every value that occurs |
| Database.WrongAttempts | src/db.py:57-60 | `get_wrong_attempts()` has no repeated id, and an id occurs in it exactly when some attempt at that card was wrong |
| Database.DistinctMultiplicity | src/db.py:59 | in a list without repetitions, every value occurs exactly once |
| Database.WrongIdListsArePermutations | src/db.py:59-60 | any two lists the set may produce differ only in order |
| Database.WrongAttemptsEmptyIff | src/db.py:57-60 | the result is empty exactly when every attempt was correct |
| Database.WrongAttemptsExample | src/db.py:57-60 | attempts wrong(1), wrong(1), right(2), wrong(3) give the two ids 1 and 3 |
| Database.DatabaseManager.constructor | src/db.py:16 | a handle on a store holding the given tables |
| Database.DatabaseManager.AddFlashcard | src/db.py:18-27 | appends one row with the given question, answer, topic and source (default `None`, `"manual"`), returns that row, and leaves the earlier rows unchanged |
| Database.DatabaseManager.DeleteFlashcard | src/db.py:41-43 | removes exactly the rows with that id, returns them, keeps every other row in order, and changes nothing when no row matches |
| Database.DatabaseManager.RecordProgress | src/db.py:46-51 | appends one attempt with the given card id and correctness, and returns it |
| Database.DatabaseManager.AddUploadedPdf | src/db.py:63-68 | appends one record with the given file name and user id (default `None`), and returns it |
| Database.DatabaseManager.DeleteUploadedPdf | src/db.py:74-76 | removes exactly the records with that id, returns them, and keeps every other record |
| Database.DeletedFlashcardIsGone | src/db.py:37-43 | after a delete by id, a select by that id finds nothing |
| Database.AddedFlashcardIsFound | src/db.py:18-27 | after an insert, selecting by the new row's id returns the earlier rows with that id followed by the new row |
| Logic.FlashcardInputError | src/logic.py:33-34 | helper of the add methods: the add is refused, with "Question & Answer are required", exactly when the question or the answer is empty |
| Logic.ProgressInputError | src/logic.py:69-70 | helper of `AddProgress`: the attempt is refused, with "Flashcard ID is required", exactly when the id is missing, so id 0 is accepted |
| Logic.PdfInputError | src/logic.py:98-99 | helper of `AddUploadedPdf`: the record is refused, with "File name is required", exactly when the file name is empty, the only input checked |
| Logic.WriteEnvelope | src/logic.py:35-38 | helper of the add and delete methods: a write reports success exactly when the store returned a row, and carries the success or failure message |
| Logic.ReadEnvelope | src/logic.py:42-45 | helper of the list reads: a read reports success exactly when the store result is non-empty, and then carries the whole result as `data`; otherwise it carries the "not found" message |
| Logic.FirstEnvelope | src/logic.py:49-52 | helper of `GetFlashcardById`: a single-item read carries the first row when there is one, and the "not found" message otherwise |
| Logic.FlashcardManager.constructor | src/logic.py:28-29 | a manager over the given store |
| Logic.FlashcardManager.AddFlashcard | src/logic.py:31-38 | the corrected binding of "## Findings" (`source` passed by name): empty input is refused and nothing is stored; otherwise exactly one card is appended, keeping the caller's `source`, and the add succeeds |
| Logic.FlashcardManager.AddFlashcardAsWritten | src/logic.py:31-38 | as written, the stored card has `topic` set to the caller's `source` and `source` left at "manual" |
| Logic.SourceDroppedExample | src/logic.py:35 | adding a card with source "pdf" stores source "manual" and topic "pdf" |
| Logic.SourceKeptExample | src/db.py:18 | with the argument bound by name, the card keeps source "pdf" and has no topic |
| Logic.FlashcardManager.GetFlashcards | src/logic.py:40-45 | returns `data` exactly when the table is non-empty; `data` is every card ordered by `created_at`; otherwise "No flashcards found" |
| Logic.FlashcardManager.GetFlashcardById | src/logic.py:47-52 | returns `data` exactly when some card has the id, and then a card with that id; otherwise "Flashcard not found" |
| Logic.FlashcardManager.DeleteFlashcard | src/logic.py:54-59 | succeeds exactly when some card had the id, removes those cards, and carries the matching message |
| Logic.ProgressManager.constructor | src/logic.py:64-65 | a manager over the given store |
| Logic.ProgressManager.AddProgress | src/logic.py:67-74 | a missing id is refused and nothing is stored; otherwise exactly one attempt is appended and the add succeeds |
| Logic.ProgressManager.GetAllProgress | src/logic.py:76-81 | returns `data` exactly when some attempt exists, and then every attempt, most recent first; otherwise "No progress found" |
| Logic.ProgressManager.GetWrongFlashcardIds | src/logic.py:83-88 | returns `data` exactly when some attempt was wrong, and then the distinct ids of wrongly answered cards; otherwise "No wrong flashcards found" |
| Logic.PdfManager.constructor | src/logic.py:93-94 | a manager over the given store |
| Logic.PdfManager.AddUploadedPdf | src/logic.py:96-103 | an empty file name is refused and nothing is stored; otherwise exactly one record is appended and the add succeeds |
| Logic.PdfManager.GetUploadedPdfs | src/logic.py:105-110 | returns `data` exactly when some record exists, and then every record, most recent first; otherwise "No uploaded PDFs found" |
| Logic.PdfManager.DeleteUploadedPdf | src/logic.py:112-117 | succeeds exactly when some record had the id, removes those records, and carries the matching message |
| Quiz.LoadedCards | frontend/app.py:10-15 | helper of `Start`: the session starts with the response body on status 200, and with no cards on any other status or a connection error |
| Quiz.QuizSession.Start | frontend/app.py:17-27 | a fresh session is at index 0 with score 0, answered 0 and no result shown, and satisfies the invariant |
| Quiz.QuizSession.Submit | frontend/app.py:77-82 | `answered` grows by exactly 1, `score` grows by 1 exactly when the normalised answers are equal, the result is shown, and the invariant is kept |
| Quiz.QuizSession.Next | frontend/app.py:84-86 | the index grows by exactly 1, the result is cleared, and the score, count and card list are unchanged |
| Quiz.QuizSession.Restart | frontend/app.py:53-57 | only on the completed screen; the index, score and count return to 0 and the result is cleared, on the same card list |
| Quiz.QuizSession.View | frontend/app.py:42-97 | "no cards" exactly when the list is empty; "completed" exactly when the index is past the last card, with the score out of the count; otherwise question number index+1 of the total, with the feedback shown after Submit |
| Quiz.RepeatedSubmitExample | frontend/app.py:77-79 | two Submits on the first card leave `answered` at 2 while the index is still 0 |
| Quiz.AddFormOutcome | frontend/app.py:111-121 | the form posts the fields exactly when neither is blank after stripping, and otherwise reports "Both fields are required!" |
| Quiz.FormCheckImpliesManagerCheck | frontend/app.py:112 | anything the form posts passes the manager's check, but an all-space question passes the manager and not the form |
| Quiz.ProgressTally | frontend/app.py:130-133 | counts exist exactly when something was answered; then correct is the score, correct plus incorrect is the count, and incorrect is not negative |
| Quiz.QuizSession.Progress | frontend/app.py:130-133 | on a session that keeps its invariant, counts exist exactly when something was answered; correct is the session's score and incorrect is `answered - score`, between 0 and `answered` |

Some definitions have no contract of their own and are described by the lemma rows above:
- `Text.Strip`, `Text.Normalise` and `Text.AnswerMatches` (frontend/app.py:80) by the `Text` rows;
- `Text.IsBlank` (frontend/app.py:112) by `Text.BlankIffAllSpace`;
- `Database.Truthy` and `Database.TopicFilter` (src/db.py:32) by `Database.SelectFlashcardsRows`;
- `Quiz.QuizSession.Valid` by the `Quiz.QuizSession` rows that establish and keep it.

## Left out

- The hosted store's client is replaced by the in-memory tables of `DatabaseManager`. This covers `create_client`, `.execute()`, dotenv and the environment keys at src/db.py:1-13. The model does not reproduce how the store assigns ids and timestamps; they are given as a `Stamp`. Cascade deletes are not modelled.
- Refusals by the store are not modelled. The in-memory insert always returns the inserted row. The failure messages "Failed to add flashcard", "Failed to record progress" and "Failed to store PDF metadata" therefore appear only in `Logic.WriteEnvelope`, which is stated for any store result.
- Logic.FlashcardManager.GetFlashcards: `.order("created_at")` leaves the order of rows with equal timestamps to the store. The model's sort keeps table order for ties, but the manager contracts state only that the result is ordered and is a permutation of the table. The same holds for the progress and PDF selects.
- Database.WrongAttempts: Python's set gives no particular order. The model lists ids by their first wrong attempt. `Database.WrongIdListsArePermutations` shows that every admissible answer has the same elements, so nothing proved depends on this choice.
- api/main.py is not part of this model. It is HTTP routing and request models.
- Streamlit widgets, the `requests` calls and the matplotlib chart are not modelled. The card list is the abstract input `Quiz.Fetch`.
- On status 200 the body is the manager's envelope (api/main.py:61), which frontend/app.py:13 stores as the card list, so indexing it at frontend/app.py:62 would fail. The model takes the body to be the list of cards.
- The card-list refresh after a successful add (frontend/app.py:117) is not modelled. It is a network call, and it replaces the card list without resetting `current_index`, so a shorter list would break the session invariant `current_index <= |cards|`. As written it cannot run, because frontend/app.py:113 posts to `/flashcards/add`, which the API does not define for POST.
- The UI posts to a route that the API does not define. This mismatch is I/O-level and is not modelled.
- The accuracy percentage and its `%.2f` formatting (frontend/app.py:131, 134) are floating point and are not modelled. Only the integer counts and the `answered > 0` guard are kept.
- Text.IsSpace and Text.LowerChar cover only ASCII. Python's `strip()` and `lower()` also treat Unicode whitespace and Unicode case, and the model does not.
- The commented-out `add_task` text at src/logic.py:3-20 is dead code and is not modelled.
- The invariant of `Quiz.QuizSession` does not bound `answered` by the index. Submit may be pressed again on the same card (`Quiz.RepeatedSubmitExample`), and the code follows that behaviour.
- Restart does not reset `last_correct`; the model keeps it, as the code does.

## Findings

| source | as written | input that shows it | evidently intended | confidence | as-written member | corrected member |
|---|---|---|---|---|---|---|
| src/logic.py:35 | `self.db.add_flashcard(question, answer, source)` passes `source` as the third positional argument, which src/db.py:18 names `topic` | `add_flashcard("Capital of France?", "Paris", "pdf")` stores `topic = "pdf"` and `source = "manual"` | the caller's `source` is stored as the card's source and the topic stays unset | not executed | Logic.FlashcardManager.AddFlashcardAsWritten, Logic.SourceDroppedExample | Logic.FlashcardManager.AddFlashcard, Logic.SourceKeptExample |
