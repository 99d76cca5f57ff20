/**
 * The domain managers of src/logic.py. Each add method checks its inputs
 * before the store is touched; every method calls the data-access layer and wraps
 * the store's result into an envelope: `{"Success": True, "message": ...}`
 * for writes, `{"Success": True, "data": ...}` for reads, and
 * `{"Success": False, "message": ...}` for every failure, an empty store
 * result included.
 */
module Logic {
  import opened Options
  import opened Ordering
  import opened Database

  /** The `{Success, data|message}` dictionary every manager method returns. */
  datatype Envelope<T> = Succeeded(message: string) | Data(data: T) | Failed(message: string) {
    /** The value of the `"Success"` key. */
    predicate Success() {
      !Failed?
    }
  }

  // ---------------------------------------------------------------------------
  // Input checks (before any store call)

  /** `if not question or not answer`: the falsy check of `add_flashcard`. */
  function FlashcardInputError(question: string, answer: string): (err: Option<string>)
    ensures err.Some? <==> question == [] || answer == []
    ensures err.Some? ==> err.value == "Question & Answer are required"
  {
    if question == [] || answer == [] then Some("Question & Answer are required") else None
  }

  /** `if flashcard_id is None`: only a missing id is refused, so id 0 passes. */
  function ProgressInputError(flashcardId: Option<int>): (err: Option<string>)
    ensures err.Some? <==> flashcardId.None?
    ensures err.Some? ==> err.value == "Flashcard ID is required"
  {
    if flashcardId.None? then Some("Flashcard ID is required") else None
  }

  /** `if not file_name`: the falsy check of `add_uploaded_pdf`, the only input it checks. */
  function PdfInputError(fileName: string): (err: Option<string>)
    ensures err.Some? <==> fileName == []
    ensures err.Some? ==> err.value == "File name is required"
  {
    if fileName == [] then Some("File name is required") else None
  }

  // ---------------------------------------------------------------------------
  // Envelopes built from a store result

  /** A write succeeds exactly when the store handed back at least one row. */
  function WriteEnvelope<R>(result: seq<R>, succeeded: string, failed: string): (e: Envelope<()>)
    ensures e.Success() <==> result != []
    ensures !e.Data?
    ensures e.Succeeded? ==> e.message == succeeded
    ensures e.Failed? ==> e.message == failed
  {
    if result != [] then Succeeded(succeeded) else Failed(failed)
  }

  /** A read succeeds exactly when the result is non-empty, and then carries all of it. */
  function ReadEnvelope<R>(result: seq<R>, notFound: string): (e: Envelope<seq<R>>)
    ensures e.Success() <==> result != []
    ensures !e.Succeeded?
    ensures e.Data? ==> e.data == result
    ensures e.Failed? ==> e.message == notFound
  {
    if result != [] then Data(result) else Failed(notFound)
  }

  /** A single-item read succeeds exactly when the result is non-empty, and then carries its first row. */
  function FirstEnvelope<R>(result: seq<R>, notFound: string): (e: Envelope<R>)
    ensures e.Success() <==> result != []
    ensures !e.Succeeded?
    ensures e.Data? ==> result != [] && e.data == result[0]
    ensures e.Failed? ==> e.message == notFound
  {
    if result != [] then Data(result[0]) else Failed(notFound)
  }

  // ---------------------------------------------------------------------------
  // The managers. All three share one store handle, as the three Python
  // managers share the one process-wide store client.

  class FlashcardManager {
    const db: DatabaseManager

    constructor (db: DatabaseManager)
      ensures this.db == db
    {
      this.db := db;
    }

    /**
     * `add_flashcard(question, answer, source="manual")` with the store call
     * binding `source` to the store's `source` parameter.
     */
    method AddFlashcard(stamp: Stamp, question: string, answer: string, source: string := "manual")
      returns (e: Envelope<()>)
      modifies db`flashcards
      ensures question == [] || answer == [] ==>
                e == Failed("Question & Answer are required") && db.flashcards == old(db.flashcards)
      ensures question != [] && answer != [] ==>
                e == Succeeded("Flashcard added successfully") &&
                db.flashcards == old(db.flashcards) + [Flashcard(stamp.id, question, answer, None, source, stamp.at)]
    {
      var err := FlashcardInputError(question, answer);
      if err.Some? {
        return Failed(err.value);
      }
      var result := db.AddFlashcard(stamp, question, answer, source := source);
      e := WriteEnvelope(result, "Flashcard added successfully", "Failed to add flashcard");
    }

    /**
     * `add_flashcard` exactly as src/logic.py:35 calls the store: the third
     * positional argument lands in `topic`, and `source` keeps its default.
     */
    method AddFlashcardAsWritten(stamp: Stamp, question: string, answer: string, source: string := "manual")
      returns (e: Envelope<()>)
      modifies db`flashcards
      ensures question == [] || answer == [] ==>
                e == Failed("Question & Answer are required") && db.flashcards == old(db.flashcards)
      ensures question != [] && answer != [] ==>
                e == Succeeded("Flashcard added successfully") &&
                db.flashcards == old(db.flashcards) + [Flashcard(stamp.id, question, answer, Some(source), "manual", stamp.at)]
    {
      var err := FlashcardInputError(question, answer);
      if err.Some? {
        return Failed(err.value);
      }
      var result := db.AddFlashcard(stamp, question, answer, Some(source));
      e := WriteEnvelope(result, "Flashcard added successfully", "Failed to add flashcard");
    }

    /** `get_flashcards()`: all cards, oldest first, or "No flashcards found" for an empty table. */
    function GetFlashcards(): (e: Envelope<seq<Flashcard>>)
      reads db
      ensures e.Data? <==> db.flashcards != []
      ensures e.Data? ==> SortedBy(e.data, CreatedAt, false) && multiset(e.data) == multiset(db.flashcards)
      ensures !e.Succeeded?
      ensures e.Failed? ==> e.message == "No flashcards found"
    {
      SelectFlashcardsRows(db.flashcards, None);
      ReadEnvelope(SelectFlashcards(db.flashcards, None), "No flashcards found")
    }

    /** `get_flashcard_by_id(id)`: a row with that id, or "Flashcard not found". */
    function GetFlashcardById(id: int): (e: Envelope<Flashcard>)
      reads db
      ensures e.Data? <==> exists i :: 0 <= i < |db.flashcards| && db.flashcards[i].id == id
      ensures e.Data? ==> e.data in db.flashcards && e.data.id == id
      ensures !e.Succeeded?
      ensures e.Failed? ==> e.message == "Flashcard not found"
    {
      FirstEnvelope(SelectFlashcardById(db.flashcards, id), "Flashcard not found")
    }

    /** `delete_flashcard(id)`: succeeds exactly when some row had that id. */
    method DeleteFlashcard(id: int) returns (e: Envelope<()>)
      modifies db`flashcards
      ensures e.Success() <==> exists i :: 0 <= i < |old(db.flashcards)| && old(db.flashcards)[i].id == id
      ensures e.Success() ==> e == Succeeded("Flashcard deleted successfully")
      ensures !e.Success() ==> e == Failed("Failed to delete flashcard")
      ensures db.flashcards == Filter(old(db.flashcards), Not(CardHasId(id)))
    {
      var result := db.DeleteFlashcard(id);
      assert result == SelectFlashcardById(old(db.flashcards), id);
      e := WriteEnvelope(result, "Flashcard deleted successfully", "Failed to delete flashcard");
    }
  }

  class ProgressManager {
    const db: DatabaseManager

    constructor (db: DatabaseManager)
      ensures this.db == db
    {
      this.db := db;
    }

    /** `add_progress(flashcard_id, is_correct)`: refuses only a missing id. */
    method AddProgress(stamp: Stamp, flashcardId: Option<int>, isCorrect: bool) returns (e: Envelope<()>)
      modifies db`progress
      ensures flashcardId.None? ==>
                e == Failed("Flashcard ID is required") && db.progress == old(db.progress)
      ensures flashcardId.Some? ==>
                e == Succeeded("Progress recorded successfully") &&
                db.progress == old(db.progress) + [ProgressEntry(stamp.id, flashcardId.value, isCorrect, stamp.at)]
    {
      var err := ProgressInputError(flashcardId);
      if err.Some? {
        return Failed(err.value);
      }
      var result := db.RecordProgress(stamp, flashcardId.value, isCorrect);
      e := WriteEnvelope(result, "Progress recorded successfully", "Failed to record progress");
    }

    /** `get_all_progress()`: every attempt, most recent first, or "No progress found". */
    function GetAllProgress(): (e: Envelope<seq<ProgressEntry>>)
      reads db
      ensures e.Data? <==> db.progress != []
      ensures e.Data? ==> SortedBy(e.data, AttemptedAt, true) && multiset(e.data) == multiset(db.progress)
      ensures !e.Succeeded?
      ensures e.Failed? ==> e.message == "No progress found"
    {
      ReadEnvelope(SelectProgress(db.progress), "No progress found")
    }

    /** `get_wrong_flashcard_ids()`: the distinct ids of wrongly answered cards, or "No wrong flashcards found". */
    function GetWrongFlashcardIds(): (e: Envelope<seq<int>>)
      reads db
      ensures e.Data? <==> exists k :: 0 <= k < |db.progress| && !db.progress[k].isCorrect
      ensures e.Data? ==> IsWrongIdList(e.data, db.progress)
      ensures !e.Succeeded?
      ensures e.Failed? ==> e.message == "No wrong flashcards found"
    {
      WrongAttemptsEmptyIff(db.progress);
      ReadEnvelope(WrongAttempts(db.progress), "No wrong flashcards found")
    }
  }

  class PdfManager {
    const db: DatabaseManager

    constructor (db: DatabaseManager)
      ensures this.db == db
    {
      this.db := db;
    }

    /** `add_uploaded_pdf(file_name, user_id=None)`: refuses an empty file name, accepts a missing user. */
    method AddUploadedPdf(stamp: Stamp, fileName: string, userId: Option<int> := None) returns (e: Envelope<()>)
      modifies db`pdfs
      ensures fileName == [] ==> e == Failed("File name is required") && db.pdfs == old(db.pdfs)
      ensures fileName != [] ==>
                e == Succeeded("PDF metadata stored successfully") &&
                db.pdfs == old(db.pdfs) + [UploadedPdf(stamp.id, fileName, userId, stamp.at)]
    {
      var err := PdfInputError(fileName);
      if err.Some? {
        return Failed(err.value);
      }
      var result := db.AddUploadedPdf(stamp, fileName, userId);
      e := WriteEnvelope(result, "PDF metadata stored successfully", "Failed to store PDF metadata");
    }

    /** `get_uploaded_pdfs()`: every record, most recent first, or "No uploaded PDFs found". */
    function GetUploadedPdfs(): (e: Envelope<seq<UploadedPdf>>)
      reads db
      ensures e.Data? <==> db.pdfs != []
      ensures e.Data? ==> SortedBy(e.data, UploadedAt, true) && multiset(e.data) == multiset(db.pdfs)
      ensures !e.Succeeded?
      ensures e.Failed? ==> e.message == "No uploaded PDFs found"
    {
      ReadEnvelope(SelectUploadedPdfs(db.pdfs), "No uploaded PDFs found")
    }

    /** `delete_uploaded_pdf(id)`: succeeds exactly when some record had that id. */
    method DeleteUploadedPdf(id: int) returns (e: Envelope<()>)
      modifies db`pdfs
      ensures e.Success() <==> exists i :: 0 <= i < |old(db.pdfs)| && old(db.pdfs)[i].id == id
      ensures e.Success() ==> e == Succeeded("Uploaded PDF deleted successfully")
      ensures !e.Success() ==> e == Failed("Failed to delete PDF metadata")
      ensures db.pdfs == Filter(old(db.pdfs), Not(PdfHasId(id)))
    {
      var result := db.DeleteUploadedPdf(id);
      FilterMembers(old(db.pdfs), PdfHasId(id));
      assert forall i :: 0 <= i < |old(db.pdfs)| ==> PdfHasId(id)(old(db.pdfs)[i]) == (old(db.pdfs)[i].id == id);
      if result != [] {
        assert result[0] in result;
      }
      e := WriteEnvelope(result, "Uploaded PDF deleted successfully", "Failed to delete PDF metadata");
    }
  }

  /**
   * The positional-argument defect on a concrete call: a card added from a
   * PDF through `add_flashcard(q, a, "pdf")` is stored with source "manual"
   * and topic "pdf".
   */
  method SourceDroppedExample() returns (stored: Flashcard)
    ensures stored.source == "manual" && stored.topic == Some("pdf")
  {
    var db := new DatabaseManager([], [], []);
    var manager := new FlashcardManager(db);
    var e := manager.AddFlashcardAsWritten(Stamp(1, 0), "Capital of France?", "Paris", "pdf");
    stored := db.flashcards[0];
  }

  /** The same call through the corrected binding keeps the source. */
  method SourceKeptExample() returns (stored: Flashcard)
    ensures stored.source == "pdf" && stored.topic == None
  {
    var db := new DatabaseManager([], [], []);
    var manager := new FlashcardManager(db);
    var e := manager.AddFlashcard(Stamp(1, 0), "Capital of France?", "Paris", "pdf");
    stored := db.flashcards[0];
  }
}
