/**
 * The data-access layer (`DatabaseManager` of src/db.py) over an in-memory
 * stand-in for the hosted table store: each of the three tables is a
 * sequence of rows in insertion order. Inserts append, deletes remove the
 * matching rows and hand them back, and selects are filters and orderings
 * of a table.
 */
module Database {
  import opened Options
  import opened Ordering

  /** What the store assigns to a row it inserts: the identifier and the timestamp. */
  datatype Stamp = Stamp(id: int, at: int)

  /** A row of the `flashcards` table. */
  datatype Flashcard = Flashcard(id: int, question: string, answer: string,
                                 topic: Option<string>, source: string, createdAt: int)

  /** A row of the `progress` table: one quiz attempt. */
  datatype ProgressEntry = ProgressEntry(id: int, flashcardId: int, isCorrect: bool, attemptedAt: int)

  /** A row of the `uploaded_pdfs` table. */
  datatype UploadedPdf = UploadedPdf(id: int, fileName: string, userId: Option<int>, uploadedAt: int)

  function CreatedAt(c: Flashcard): int { c.createdAt }
  function AttemptedAt(e: ProgressEntry): int { e.attemptedAt }
  function UploadedAt(p: UploadedPdf): int { p.uploadedAt }

  /** Python's truthiness of the optional `topic` argument: `None` and `""` are false. */
  predicate Truthy(topic: Option<string>) {
    topic.Some? && topic.value != ""
  }

  /** The row filter of `get_flashcards(topic)`: `.eq("topic", topic)`, applied only for a truthy topic. */
  function TopicFilter(topic: Option<string>): Flashcard -> bool {
    (c: Flashcard) => !Truthy(topic) || c.topic == topic
  }

  function CardHasId(id: int): Flashcard -> bool { (c: Flashcard) => c.id == id }
  function PdfHasId(id: int): UploadedPdf -> bool { (p: UploadedPdf) => p.id == id }
  function IsWrong(e: ProgressEntry): bool { !e.isCorrect }

  // ---------------------------------------------------------------------------
  // Selects, as functions of a table

  /** `get_flashcards(topic)`: the rows of the topic (all rows for no topic), oldest first. */
  function SelectFlashcards(table: seq<Flashcard>, topic: Option<string>): (r: seq<Flashcard>)
    ensures SortedBy(r, CreatedAt, false)
    ensures multiset(r) == multiset(Filter(table, TopicFilter(topic)))
  {
    SortBy(Filter(table, TopicFilter(topic)), CreatedAt, false)
  }

  /** A truthy topic selects exactly the rows of that topic; no topic selects every row. */
  lemma SelectFlashcardsRows(table: seq<Flashcard>, topic: Option<string>)
    ensures forall c :: c in SelectFlashcards(table, topic) <==>
                          c in table && (!Truthy(topic) || c.topic == topic)
    ensures !Truthy(topic) ==> multiset(SelectFlashcards(table, topic)) == multiset(table)
  {
    var f := Filter(table, TopicFilter(topic));
    var r := SelectFlashcards(table, topic);
    FilterMembers(table, TopicFilter(topic));
    forall c ensures c in r <==> c in table && (!Truthy(topic) || c.topic == topic) {
      calc {
        c in r;
        c in multiset(r);
        c in multiset(f);
        c in f;
      }
      assert TopicFilter(topic)(c) == (!Truthy(topic) || c.topic == topic);
    }
    if !Truthy(topic) {
      FilterKeepsAll(table, TopicFilter(topic));
    }
  }

  /** `get_flashcard_by_id(id)`: exactly the rows carrying that id, in table order. */
  function SelectFlashcardById(table: seq<Flashcard>, id: int): (r: seq<Flashcard>)
    ensures forall i :: 0 <= i < |r| ==> r[i] in table && r[i].id == id
    ensures forall i :: 0 <= i < |table| && table[i].id == id ==> table[i] in r
    ensures r == [] <==> forall i :: 0 <= i < |table| ==> table[i].id != id
  {
    var r := Filter(table, CardHasId(id));
    FilterMembers(table, CardHasId(id));
    assert forall c :: CardHasId(id)(c) == (c.id == id);
    assert r != [] ==> r[0] in r;
    r
  }

  /** `get_progress()`: every attempt, most recent first. */
  function SelectProgress(table: seq<ProgressEntry>): (r: seq<ProgressEntry>)
    ensures SortedBy(r, AttemptedAt, true)
    ensures multiset(r) == multiset(table)
  {
    SortBy(table, AttemptedAt, true)
  }

  /** `get_uploaded_pdfs()`: every PDF record, most recently uploaded first. */
  function SelectUploadedPdfs(table: seq<UploadedPdf>): (r: seq<UploadedPdf>)
    ensures SortedBy(r, UploadedAt, true)
    ensures multiset(r) == multiset(table)
  {
    SortBy(table, UploadedAt, true)
  }

  // ---------------------------------------------------------------------------
  // get_wrong_attempts: the distinct flashcard ids with a wrong attempt

  predicate NoDuplicates(s: seq<int>) {
    forall i, j :: 0 <= i < j < |s| ==> s[i] != s[j]
  }

  /** Some attempt at flashcard `id` in `table` was wrong. */
  predicate HasWrongAttempt(table: seq<ProgressEntry>, id: int) {
    exists k :: 0 <= k < |table| && !table[k].isCorrect && table[k].flashcardId == id
  }

  /**
   * What `get_wrong_attempts` may return: the list built from a set, so each
   * id once, in no particular order, and exactly the ids with a wrong attempt.
   */
  ghost predicate IsWrongIdList(r: seq<int>, table: seq<ProgressEntry>) {
    NoDuplicates(r) && forall id :: id in r <==> HasWrongAttempt(table, id)
  }

  /** The list of `flashcard_id`s of the rows of `table`. */
  function FlashcardIds(table: seq<ProgressEntry>): (r: seq<int>)
    ensures |r| == |table|
    ensures forall k :: 0 <= k < |table| ==> r[k] == table[k].flashcardId
  {
    seq(|table|, k requires 0 <= k < |table| => table[k].flashcardId)
  }

  /** Keeps the first occurrence of every value. */
  function Distinct(s: seq<int>): (r: seq<int>)
    ensures NoDuplicates(r)
    ensures forall x :: x in r <==> x in s
  {
    if s == [] then []
    else
      var r := Distinct(s[..|s| - 1]);
      assert s == s[..|s| - 1] + [s[|s| - 1]];
      if s[|s| - 1] in r then r else r + [s[|s| - 1]]
  }

  /**
   * `get_wrong_attempts()`: the `flashcard_id`s of the rows with
   * `is_correct == False`, each once; the model lists them in the order of
   * their first wrong attempt, one of the orders the set may produce.
   */
  function WrongAttempts(table: seq<ProgressEntry>): (r: seq<int>)
    ensures IsWrongIdList(r, table)
  {
    var wrong := Filter(table, IsWrong);
    var ids := FlashcardIds(wrong);
    var r := Distinct(ids);
    FilterMembers(table, IsWrong);
    assert forall id :: id in r <==> HasWrongAttempt(table, id) by {
      forall id ensures id in r <==> HasWrongAttempt(table, id) {
        if id in r {
          var k :| 0 <= k < |ids| && ids[k] == id;
          assert wrong[k] in wrong;
          var j :| 0 <= j < |table| && table[j] == wrong[k];
        }
        if HasWrongAttempt(table, id) {
          var k :| 0 <= k < |table| && !table[k].isCorrect && table[k].flashcardId == id;
          assert IsWrong(table[k]) && table[k] in table;
          var j :| 0 <= j < |wrong| && wrong[j] == table[k];
          assert ids[j] == id;
        }
      }
    }
    r
  }

  /** A list without repetitions holds each of its values exactly once. */
  lemma {:induction false} DistinctMultiplicity(s: seq<int>)
    requires NoDuplicates(s)
    ensures forall x :: multiset(s)[x] == if x in s then 1 else 0
  {
    if s != [] {
      var t := s[..|s| - 1];
      assert s == t + [s[|s| - 1]];
      assert NoDuplicates(t);
      DistinctMultiplicity(t);
      assert s[|s| - 1] !in t;
    }
  }

  /** Any two admissible results of `get_wrong_attempts` differ at most in order. */
  lemma WrongIdListsArePermutations(a: seq<int>, b: seq<int>, table: seq<ProgressEntry>)
    requires IsWrongIdList(a, table) && IsWrongIdList(b, table)
    ensures multiset(a) == multiset(b)
    ensures |a| == |b|
  {
    DistinctMultiplicity(a);
    DistinctMultiplicity(b);
    assert forall x :: multiset(a)[x] == multiset(b)[x];
    assert |a| == |multiset(a)| && |b| == |multiset(b)|;
  }

  /** The result of `get_wrong_attempts` is empty exactly when no attempt was wrong. */
  lemma WrongAttemptsEmptyIff(table: seq<ProgressEntry>)
    ensures WrongAttempts(table) == [] <==> forall k :: 0 <= k < |table| ==> table[k].isCorrect
  {
    var r := WrongAttempts(table);
    if r != [] {
      assert HasWrongAttempt(table, r[0]);
    }
    if exists k :: 0 <= k < |table| && !table[k].isCorrect {
      var k :| 0 <= k < |table| && !table[k].isCorrect;
      assert HasWrongAttempt(table, table[k].flashcardId);
    }
  }

  /** Attempts (1, wrong), (1, wrong), (2, right), (3, wrong) give the two ids 1 and 3. */
  lemma WrongAttemptsExample()
    ensures var r := WrongAttempts([ProgressEntry(10, 1, false, 0), ProgressEntry(11, 1, false, 1),
                                    ProgressEntry(12, 2, true, 2), ProgressEntry(13, 3, false, 3)]);
            |r| == 2 && 1 in r && 3 in r
  {
    var table := [ProgressEntry(10, 1, false, 0), ProgressEntry(11, 1, false, 1),
                  ProgressEntry(12, 2, true, 2), ProgressEntry(13, 3, false, 3)];
    var expected := [1, 3];
    assert HasWrongAttempt(table, 1) by { assert !table[0].isCorrect && table[0].flashcardId == 1; }
    assert HasWrongAttempt(table, 3) by { assert !table[3].isCorrect && table[3].flashcardId == 3; }
    forall id | HasWrongAttempt(table, id) ensures id in expected {
      var k :| 0 <= k < |table| && !table[k].isCorrect && table[k].flashcardId == id;
      assert k == 0 || k == 1 || k == 3;
    }
    assert NoDuplicates(expected);
    assert IsWrongIdList(expected, table);
    WrongIdListsArePermutations(WrongAttempts(table), expected, table);
  }

  // ---------------------------------------------------------------------------
  // The store

  /** The three tables of the store, updated in place by the inserts and deletes. */
  class DatabaseManager {
    var flashcards: seq<Flashcard>
    var progress: seq<ProgressEntry>
    var pdfs: seq<UploadedPdf>

    /** A handle on a store whose tables currently hold the given rows. */
    constructor (flashcards: seq<Flashcard>, progress: seq<ProgressEntry>, pdfs: seq<UploadedPdf>)
      ensures this.flashcards == flashcards && this.progress == progress && this.pdfs == pdfs
    {
      this.flashcards := flashcards;
      this.progress := progress;
      this.pdfs := pdfs;
    }

    /** `add_flashcard(question, answer, topic=None, source="manual")`: inserts one row and returns it. */
    method AddFlashcard(stamp: Stamp, question: string, answer: string,
                        topic: Option<string> := None, source: string := "manual")
      returns (inserted: seq<Flashcard>)
      modifies this`flashcards
      ensures flashcards == old(flashcards) + inserted
      ensures inserted == [Flashcard(stamp.id, question, answer, topic, source, stamp.at)]
    {
      inserted := [Flashcard(stamp.id, question, answer, topic, source, stamp.at)];
      flashcards := flashcards + inserted;
    }

    /** `delete_flashcard(id)`: removes every row with that id and returns the removed rows. */
    method DeleteFlashcard(id: int) returns (deleted: seq<Flashcard>)
      modifies this`flashcards
      ensures deleted == Filter(old(flashcards), CardHasId(id))
      ensures flashcards == Filter(old(flashcards), Not(CardHasId(id)))
      ensures multiset(deleted) + multiset(flashcards) == multiset(old(flashcards))
      ensures deleted == [] ==> flashcards == old(flashcards)
    {
      deleted := Filter(flashcards, CardHasId(id));
      FilterPartition(flashcards, CardHasId(id));
      if deleted == [] {
        FilterNoneKeepsRest(flashcards, CardHasId(id));
      }
      flashcards := Filter(flashcards, Not(CardHasId(id)));
    }

    /** `record_progress(flashcard_id, is_correct)`: inserts one attempt and returns it. */
    method RecordProgress(stamp: Stamp, flashcardId: int, isCorrect: bool)
      returns (inserted: seq<ProgressEntry>)
      modifies this`progress
      ensures progress == old(progress) + inserted
      ensures inserted == [ProgressEntry(stamp.id, flashcardId, isCorrect, stamp.at)]
    {
      inserted := [ProgressEntry(stamp.id, flashcardId, isCorrect, stamp.at)];
      progress := progress + inserted;
    }

    /** `add_uploaded_pdf(file_name, user_id=None)`: inserts one record and returns it. */
    method AddUploadedPdf(stamp: Stamp, fileName: string, userId: Option<int> := None)
      returns (inserted: seq<UploadedPdf>)
      modifies this`pdfs
      ensures pdfs == old(pdfs) + inserted
      ensures inserted == [UploadedPdf(stamp.id, fileName, userId, stamp.at)]
    {
      inserted := [UploadedPdf(stamp.id, fileName, userId, stamp.at)];
      pdfs := pdfs + inserted;
    }

    /** `delete_uploaded_pdf(id)`: removes every record with that id and returns the removed records. */
    method DeleteUploadedPdf(id: int) returns (deleted: seq<UploadedPdf>)
      modifies this`pdfs
      ensures deleted == Filter(old(pdfs), PdfHasId(id))
      ensures pdfs == Filter(old(pdfs), Not(PdfHasId(id)))
      ensures multiset(deleted) + multiset(pdfs) == multiset(old(pdfs))
      ensures deleted == [] ==> pdfs == old(pdfs)
    {
      deleted := Filter(pdfs, PdfHasId(id));
      FilterPartition(pdfs, PdfHasId(id));
      if deleted == [] {
        FilterNoneKeepsRest(pdfs, PdfHasId(id));
      }
      pdfs := Filter(pdfs, Not(PdfHasId(id)));
    }
  }

  /** After `delete_flashcard(id)`, `get_flashcard_by_id(id)` finds nothing. */
  lemma DeletedFlashcardIsGone(table: seq<Flashcard>, id: int)
    ensures SelectFlashcardById(Filter(table, Not(CardHasId(id))), id) == []
  {
  }

  /** A flashcard added and then selected by its id is found, after any rows that already had that id. */
  lemma AddedFlashcardIsFound(table: seq<Flashcard>, row: Flashcard)
    ensures SelectFlashcardById(table + [row], row.id) == SelectFlashcardById(table, row.id) + [row]
  {
    FilterAppend(table, row, CardHasId(row.id));
  }
}
