# Flashcard catalog backend — read side

This project models the read side of the flashcard catalog backend in
`backend/app.py`. The backend keeps its catalog in one JSON document. The
document is a list of categories. Each category has an integer `id`, a
name `nome` and a list of `sets`. Each set has a list of `flashcards`.
Two endpoints read that document:

- `GET /api/categories` lists one summary per category. A summary holds
  the category's `id` and `nome`, `total_sets` (how many sets it has) and
  `total_flashcards` (how many flashcards those sets hold together).
- `GET /api/categories/<int:category_id>/sets` scans the categories in
  order. It returns the `sets` list of the first category whose id equals
  the requested one, or a 404 "category not found" answer.

Files:

- `wrappers.dfy` — the `Option` type; `None` stands for the 404 answer.
- `catalog.dfy` — module `Catalog`: the document as datatypes, and the
  specification functions and lemmas for the counts, the listing and the
  lookup.
- `app.dfy` — module `App`: the two endpoint handlers as methods. Each
  loops over the categories just as the source does. Each is proved
  against the specification in `Catalog`.

Each handler receives the document that `load_db` has just parsed, as an
immutable value. Neither handler has a `modifies` clause, so neither can
change anything. Each one's `ensures` fixes its answer as a function of
the document alone, so two calls on the same document give equal answers.

What `backend/app.py` does, and so what the model does:

- sets hang directly off categories;
- category ids are integers;
- a summary has exactly the fields `id`, `nome`, `total_sets` and
  `total_flashcards`;
- a missing key raises, and so does a missing or corrupt `database.json`;
- only the two read endpoints exist (`backend/app.py:50` plans write
  endpoints for later).

## Model

| member | source | states |
|---|---|---|
| `Catalog.FlashcardTotal` | backend/app.py:25 | the flashcard total of a category's sets is at least the flashcard count of each of its sets, and it is 0 exactly when every set is empty (so 0 for a category with no sets) |
| `Catalog.FlashcardTotalCountsAll` | backend/app.py:25 | the total equals the number of flashcards found by listing every set's flashcards one after the other |
| `Catalog.FlashcardTotalConcat` | backend/app.py:25 | the total over two lists of sets joined together is the sum of the two totals |
| `Catalog.FlashcardTotalAppend` | backend/app.py:25 | appending a set with k flashcards raises the total by exactly k |
| `Catalog.Summaries` | backend/app.py:22-31 | the listing has exactly one summary per category, in document order; the i-th summary carries the i-th category's id and nome, its number of sets and its flashcard total; no categories give an empty listing |
| `Catalog.SummariesAppend` | backend/app.py:22-31 | adding a category at the end of the document adds exactly its summary at the end of the listing and leaves the earlier summaries unchanged |
| `Catalog.FirstMatch` | backend/app.py:44-45 | the scan stops at the first category whose id equals the requested one: no earlier category has that id, and the position is past the end only when no category has it |
| `Catalog.FindSetsNotFound` | backend/app.py:44-47 | the lookup gives the not-found answer exactly when no category in the list has the requested id |
| `Catalog.FindSetsFirst` | backend/app.py:44-46 | a category that has the id, with no earlier category having it, is the one whose sets the lookup returns |
| `Catalog.FindSetsConcat` | backend/app.py:44-47 | categories after a match never change the answer, even when they share its id; categories without the id before the match are skipped |
| `Catalog.FindSetsMatchesSummary` | backend/app.py:20-47 | the lookup of an id fails exactly when no summary in the listing carries that id; otherwise the first summary carrying it reports the number of sets the lookup returns and their flashcard total |
| `App.GetCategories` | backend/app.py:20-32 | the handler's loop returns one summary per category in document order, each with the category's id, nome, number of sets and flashcard total; the result is the listing `Summaries` of the document |
| `App.GetSets` | backend/app.py:42-47 | the handler's loop returns None (404) exactly when no category has the requested id; otherwise it returns the sets of the first category in document order with that id, as `FindSets` specifies |

## Left out

- Flask app construction, route decorators, `jsonify`, HTTP status tuples and CORS setup (`backend/app.py:1-6`, `19`, `41`): transport plumbing. The 404 answer is `None`, and the error body "Categoria não encontrada" is not modelled.
- `load_db` (`backend/app.py:9-11`): opening `database.json` and parsing JSON are I/O and a library call. The parsed document is an input value. A missing file or corrupt JSON makes the source raise; that is not modelled.
- Malformed documents: a missing key raises `KeyError` or `TypeError` in the source. The typed datatypes rule these out by construction.
- Python equality between JSON values of other types: the source compares `cat["id"] == category_id`, and Python also counts `True` or `1.0` as equal to `1`. Ids here are integers. The route's `<int:category_id>` converter only passes non-negative integers to `get_sets`; `App.GetSets` also accepts negative ids, which the route never delivers.
- The fields of sets other than `flashcards`, and the contents of flashcards, are carried as maps of strings. The source passes them through untouched, whatever their JSON types.
- The server entry point `app.run(debug=True)` (`backend/app.py:53-54`).
- Write endpoints: `backend/app.py:50` only plans POST/PUT/DELETE endpoints, so the model has none.
- Concurrent requests: each request reads `database.json` afresh and writes nothing, so requests do not interact.
