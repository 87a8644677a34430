/** The two read endpoints of the backend. Each receives the document that
    load_db has just parsed; since the document is a value, neither handler
    can change it, and each answers with a function of it alone. */
module App {

  import opened Wrappers
  import opened Catalog

  /** GET /api/categories: one summary per category, in document order,
      with the category's id and name, its number of sets and its number of
      flashcards over all those sets. */
  method GetCategories(db: Document) returns (resumo: seq<Summary>)
    ensures |resumo| == |db.categories|
    ensures forall i | 0 <= i < |resumo| ::
      && resumo[i].id == db.categories[i].id
      && resumo[i].nome == db.categories[i].nome
      && resumo[i].totalSets == |db.categories[i].sets|
      && resumo[i].totalFlashcards == FlashcardTotal(db.categories[i].sets)
    ensures resumo == Summaries(db.categories)
  {
    resumo := [];
    for n := 0 to |db.categories|
      invariant resumo == Summaries(db.categories[..n])
    {
      var cat := db.categories[n];
      var totalSets := |cat.sets|;
      var totalFlashcards := FlashcardTotal(cat.sets);
      assert db.categories[..n + 1] == db.categories[..n] + [cat];
      SummariesAppend(db.categories[..n], cat);
      resumo := resumo + [Summary(cat.id, cat.nome, totalSets, totalFlashcards)];
    }
    assert db.categories[..|db.categories|] == db.categories;
  }

  /** GET /api/categories/<int:category_id>/sets: the sets of the first
      category, in document order, whose id equals the requested one; None
      (the 404 "category not found" answer) when no category has that id. */
  method GetSets(db: Document, categoryId: int) returns (r: Option<seq<StudySet>>)
    ensures r.None? <==> forall i | 0 <= i < |db.categories| :: db.categories[i].id != categoryId
    ensures r.Some? ==> exists k | 0 <= k < |db.categories| ::
      && db.categories[k].id == categoryId
      && (forall j | 0 <= j < k :: db.categories[j].id != categoryId)
      && r.value == db.categories[k].sets
    ensures r == FindSets(db.categories, categoryId)
  {
    for n := 0 to |db.categories|
      invariant forall j | 0 <= j < n :: db.categories[j].id != categoryId
    {
      if db.categories[n].id == categoryId {
        FindSetsFirst(db.categories, categoryId, n);
        return Some(db.categories[n].sets);
      }
    }
    FindSetsNotFound(db.categories, categoryId);
    return None;
  }
}
