/** The flashcard catalog document as the backend reads it from its JSON
    database, and the specification of the two read operations over it:
    the per-category summary and the first-match lookup of a category's sets. */
module Catalog {

  import opened Wrappers

  /** A flashcard; the backend never looks inside one, so its fields are
      carried as an uninterpreted map. */
  datatype Flashcard = Flashcard(fields: map<string, string>)

  /** A set of flashcards. Only its "flashcards" list is read; every other
      key of the JSON object travels untouched in `attributes`. */
  datatype StudySet = StudySet(attributes: map<string, string>, flashcards: seq<Flashcard>)

  /** A category: integer id, display name ("nome") and its sets. */
  datatype Category = Category(id: int, nome: string, sets: seq<StudySet>)

  /** The parsed database document: a list of categories. */
  datatype Document = Document(categories: seq<Category>)

  /** One entry of the category listing. */
  datatype Summary = Summary(id: int, nome: string, totalSets: nat, totalFlashcards: nat)

  // ---------------------------------------------------------------------
  // Counting flashcards
  // ---------------------------------------------------------------------

  /** The number of flashcards over all the given sets, summed in list order. */
  function FlashcardTotal(sets: seq<StudySet>): (r: nat)
    ensures forall i | 0 <= i < |sets| :: |sets[i].flashcards| <= r
    ensures r == 0 <==> forall i | 0 <= i < |sets| :: sets[i].flashcards == []
  {
    if sets == [] then 0 else |sets[0].flashcards| + FlashcardTotal(sets[1..])
  }

  /** Reference definition: every flashcard of the sets, one set after the other. */
  function AllFlashcards(sets: seq<StudySet>): seq<Flashcard>
  {
    if sets == [] then [] else sets[0].flashcards + AllFlashcards(sets[1..])
  }

  /** The total counts exactly the flashcards reachable through the sets. */
  lemma {:induction false} FlashcardTotalCountsAll(sets: seq<StudySet>)
    ensures FlashcardTotal(sets) == |AllFlashcards(sets)|
  {
    if sets != [] {
      FlashcardTotalCountsAll(sets[1..]);
    }
  }

  /** The total over two lists of sets placed one after the other is the sum
      of their totals. */
  lemma {:induction false} FlashcardTotalConcat(a: seq<StudySet>, b: seq<StudySet>)
    ensures FlashcardTotal(a + b) == FlashcardTotal(a) + FlashcardTotal(b)
  {
    if a == [] {
      assert a + b == b;
    } else {
      assert (a + b)[1..] == a[1..] + b;
      FlashcardTotalConcat(a[1..], b);
    }
  }

  /** Appending a set with k flashcards raises the total by exactly k. */
  lemma FlashcardTotalAppend(sets: seq<StudySet>, s: StudySet)
    ensures FlashcardTotal(sets + [s]) == FlashcardTotal(sets) + |s.flashcards|
  {
    FlashcardTotalConcat(sets, [s]);
  }

  // ---------------------------------------------------------------------
  // The category listing
  // ---------------------------------------------------------------------

  /** The summary record of one category. */
  function Summarize(c: Category): Summary
  {
    Summary(c.id, c.nome, |c.sets|, FlashcardTotal(c.sets))
  }

  /** The summaries of a list of categories: one per category, same order. */
  function Summaries(cats: seq<Category>): (r: seq<Summary>)
    ensures |r| == |cats|
    ensures forall i | 0 <= i < |cats| :: r[i] == Summarize(cats[i])
  {
    if cats == [] then [] else [Summarize(cats[0])] + Summaries(cats[1..])
  }

  /** Adding a category at the end of the document adds exactly its summary
      at the end of the listing and leaves the earlier entries as they were. */
  lemma SummariesAppend(cats: seq<Category>, c: Category)
    ensures Summaries(cats + [c]) == Summaries(cats) + [Summarize(c)]
  {
  }

  // ---------------------------------------------------------------------
  // Looking a category up by id
  // ---------------------------------------------------------------------

  /** The position of the first category with the given id, or |cats| when
      there is none. */
  function FirstMatch(cats: seq<Category>, id: int): (k: nat)
    ensures k <= |cats|
    ensures forall j | 0 <= j < k :: cats[j].id != id
    ensures k < |cats| ==> cats[k].id == id
  {
    if cats == [] then 0
    else if cats[0].id == id then 0
    else 1 + FirstMatch(cats[1..], id)
  }

  /** The sets of the first category with the given id; None stands for the
      "category not found" answer. */
  function FindSets(cats: seq<Category>, id: int): Option<seq<StudySet>>
  {
    var k := FirstMatch(cats, id);
    if k < |cats| then Some(cats[k].sets) else None
  }

  /** The lookup finds nothing exactly when no category carries the id. */
  lemma FindSetsNotFound(cats: seq<Category>, id: int)
    ensures FindSets(cats, id).None? <==> forall i | 0 <= i < |cats| :: cats[i].id != id
  {
  }

  /** When the lookup succeeds, it answers with the sets of a category that
      carries the id and that no earlier category's id equals. */
  lemma FindSetsFirst(cats: seq<Category>, id: int, k: nat)
    requires k < |cats| && cats[k].id == id
    requires forall j | 0 <= j < k :: cats[j].id != id
    ensures FindSets(cats, id) == Some(cats[k].sets)
  {
  }

  /** Categories after a match never change the answer, even when they
      share its id; categories before it that do not carry the id are
      skipped. */
  lemma FindSetsConcat(a: seq<Category>, b: seq<Category>, id: int)
    ensures FindSets(a + b, id) == if FindSets(a, id).Some? then FindSets(a, id) else FindSets(b, id)
  {
    var ka := FirstMatch(a, id);
    if ka < |a| {
      assert (a + b)[ka] == a[ka];
      FindSetsFirst(a + b, id, ka);
    } else {
      var kb := FirstMatch(b, id);
      if kb < |b| {
        assert (a + b)[|a| + kb] == b[kb];
        forall j | 0 <= j < |a| + kb ensures (a + b)[j].id != id {
          if j >= |a| {
            assert (a + b)[j] == b[j - |a|];
          }
        }
        FindSetsFirst(a + b, id, |a| + kb);
      } else {
        forall i | 0 <= i < |a + b| ensures (a + b)[i].id != id {
          if i >= |a| {
            assert (a + b)[i] == b[i - |a|];
          }
        }
        FindSetsNotFound(a + b, id);
      }
    }
  }

  /** Lookup and listing agree: the lookup of an id fails exactly when no
      summary carries it, and otherwise the first summary that carries it
      counts the very sets and flashcards the lookup returns. */
  lemma FindSetsMatchesSummary(cats: seq<Category>, id: int)
    ensures FindSets(cats, id).None? <==> forall i | 0 <= i < |cats| :: Summaries(cats)[i].id != id
    ensures FindSets(cats, id).Some? ==> exists k | 0 <= k < |cats| ::
      && Summaries(cats)[k].id == id
      && (forall j | 0 <= j < k :: Summaries(cats)[j].id != id)
      && Summaries(cats)[k].totalSets == |FindSets(cats, id).value|
      && Summaries(cats)[k].totalFlashcards == FlashcardTotal(FindSets(cats, id).value)
  {
    forall i | 0 <= i < |cats| ensures Summaries(cats)[i].id == cats[i].id {
      assert Summaries(cats)[i] == Summarize(cats[i]);
    }
    FindSetsNotFound(cats, id);
    var k := FirstMatch(cats, id);
    if k < |cats| {
      assert Summaries(cats)[k].id == id;
    }
  }
}
