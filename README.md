# Findora matching pipeline in Dafny

Findora is a lost-and-found service. People report lost and found items
through an HTTP API. The API validates each report, saves the image and
hands the item to `insert_item` for storage in SQLite. As written, that
statement has one placeholder more than the table has columns, so SQLite
refuses it and no report is ever stored (see Findings); the rows the rest
of the pipeline sees come from an existing database file. An autonomous
agent picks up items in the table that still lack features and extracts
image features and a text embedding for each. It then scores the item
against the active items of the opposite type, stores the best matches as
(lost, found) pairs and notifies both parties when a match is confident
enough.

This project models that pipeline and proves what it promises. It has
these modules:

- `Engine` (backend/ai/engine.py):
  - the image-path handling and the AVIF rule;
  - text normalisation;
  - the component scores;
  - the weighted fusion with its category boost and clamp;
  - rounding to three decimals;
  - `match_items` and `batch_match`.
- `Store` (backend/database.py): the `items` and `matches` tables as a
  `Database` class over two sequences, with the primary keys and the
  `UNIQUE(lost_item_id, found_item_id)` constraint as its invariant.
- `Agent` (backend/ai/agent.py): the `FindoraAgent` class, covering feature
  extraction, candidate selection, match storage and the notification gate.
- `Validation` (backend/models.py): the membership validators and the
  `ItemCreate` length bounds.
- `Api` (backend/main.py): the request handlers without the HTTP layer.
- Shared support modules:
  - `Strings`: Python's `lower`, `isspace` and `split`, and SQLite's text
    order;
  - `Lists`: a stable sort, Python slicing, filters and counts;
  - `Schema`: the rows;
  - `Wrappers`: `Option` and `Result`.

Everything the engine hands to foreign code becomes a function-valued field
of `Engine.AIEngine`. That covers:

- the vision network and the sentence encoder;
- `cosine_similarity`;
- the haversine distance;
- `exp`;
- `os.path.normpath` and `os.path.exists`;
- ISO date subtraction.

The bounds the proofs need from these functions are separate predicates:
`CosineBounded`, `DistanceNonNegative`, `DecayBounded` and `DecayMonotone`.
Only the lemmas that use a bound require it.

Identifiers (`uuid4`) and timestamps (`utcnow`) are parameters. The message
that `notify_users` prints is returned as a `Notice` value.

The engine neither redistributes the image weight nor caps pairs of
different categories:

- a missing image leaves `image_sim` at 0.0, and its 0.4 weight still counts;
- the category term is a boost of +0.1 for the same category and -0.05
  otherwise, not a ceiling;
- `Engine.NoImageCeiling` and `Engine.CrossCategoryReachesCap` state the
  consequences.

Some facts the proofs bring out:

- `validate_item_type` ignores case. `Store.Database.InsertItemCorrected`
  would store the type as typed, and rows already in the database file
  carry it as typed. The agent compares it with `"lost"` exactly, so an item
  typed `"Lost"` is scored against the lost items and stored on the found
  side (`Agent.CapitalisedLostIsFound`).
- The notification gate reads the rounded score. A pair whose unrounded
  confidence is 0.7996 is stored as 0.8 and notified, although 0.7996 is
  below the 0.80 threshold (`Agent.RoundedScoreReachesGate`).
- `report_item` takes form fields and never builds an `ItemCreate`, so the
  length bounds of `ItemCreate` are not applied to reports.
- Without an image, a pair of different categories scores at most 0.55, so
  it never reaches the agent's 0.6 threshold (`Engine.NoImageCeiling`,
  `Engine.NoImagePairCeiling`).

## Model

| member | source | states |
|---|---|---|
| Strings.LowerIsLowered | backend/ai/engine.py:114 | `lower()` keeps the length, yields lower case only, and lowering twice equals lowering once |
| Strings.StrLeTotal | backend/database.py:137 | any two TEXT values are comparable under SQLite's order |
| Strings.StrLeTransitive | backend/database.py:137 | SQLite's TEXT order is transitive, so `ORDER BY created_at` is a genuine order |
| Lists.SortBySorted | backend/ai/engine.py:218 | the stable sort yields a sorted permutation of its input |
| Lists.InsertBounded | backend/ai/engine.py:218 | inserting into a list keeps every lower bound of the list and the new element |
| Lists.SortByOfSorted | backend/main.py:194 | sorting a list that is already in order by the same key leaves it unchanged |
| Lists.PyPrefix | backend/ai/engine.py:219 | `s[:k]` is a prefix of `s`, of length min(k, len(s)) when k ≥ 0 |
| Lists.TopOfSorted | backend/ai/engine.py:218-219 | the first k of the sorted list are sorted and drawn from the list, and rank at least as high as every element left out |
| Lists.Filter | backend/ai/agent.py:98-101 | a comprehension keeps exactly the elements that satisfy its condition, and never grows the list |
| Lists.FilterSorted | backend/main.py:169-170 | filtering keeps the order of the rows it keeps |
| Lists.CountDisjoint | backend/main.py:208-209 | two counts with disjoint conditions add up to at most the length |
| Lists.CountNone | backend/main.py:210 | a condition no row meets counts zero |
| Engine.RelativeImagePath | backend/ai/engine.py:81 | after `replace` and `lstrip("/")` the path has no backslash and no leading slash |
| Engine.RootedPath | backend/ai/engine.py:81 | an absolute path without backslashes loses exactly its leading slash |
| Engine.ExtractImageFeatures | backend/ai/engine.py:80-95 | a missing path, a file that does not exist, and a path ending in `.avif` in any case all give no features |
| Engine.SplitJoinWords | backend/ai/engine.py:114 | splitting the single-space join of words gives the words back |
| Engine.NormaliseTextShape | backend/ai/engine.py:114 | normalised text is lower case, has no leading, trailing or doubled whitespace, and has the same words as the lowered input |
| Engine.NormaliseTextIdempotent | backend/ai/engine.py:114 | normalising twice equals normalising once |
| Engine.SameWordsSameEmbedding | backend/ai/engine.py:112-116 | texts with the same lowered words get the same embedding |
| Engine.Rescale | backend/ai/engine.py:126 | (c+1)/2 maps [-1, 1] into [0, 1], and 2r-1 recovers c |
| Engine.Cosine | backend/ai/engine.py:124-126 | the rescaled similarity lies in [0, 1] when the raw cosine lies in [-1, 1] |
| Engine.DistanceScore | backend/ai/engine.py:140 | zero beyond 10 km, and within [0, 1] for a non-negative distance |
| Engine.DistanceScoreDecreasing | backend/ai/engine.py:140 | a nearer pair never scores lower than a farther one |
| Engine.LocationScore | backend/ai/engine.py:128-140 | exactly 0.5 when any coordinate is missing or 0.0; 0.0 beyond 10 km; always within [0, 1] |
| Engine.TimeScore | backend/ai/engine.py:171-177 | exactly 0.7 when either creation time is empty; otherwise within [0, 1] |
| Engine.ImageSimilarity | backend/ai/engine.py:146-153 | within [0, 1], and exactly 0.0 when either image yields no features |
| Engine.TextSimilarity | backend/ai/engine.py:155-160 | within [0, 1] |
| Engine.Measure | backend/ai/engine.py:146-177 | all four component scores lie in [0, 1] |
| Engine.Clamp | backend/ai/engine.py:187 | the result lies in [0, 0.95], and a value already in range is kept |
| Engine.Confidence | backend/ai/engine.py:179-187 | the fused confidence lies in [0, 0.95] |
| Engine.ConfidenceMonotone | backend/ai/engine.py:179-187 | confidence does not decrease in any component score |
| Engine.SameCategoryBonus | backend/ai/engine.py:163-185 | before clamping, a same-category pair scores exactly 0.15 more than a different-category pair with equal components |
| Engine.RawConfidenceRange | backend/ai/engine.py:179-185 | with components in [0, 1], the unclamped sum lies in [-0.05, 1.1] |
| Engine.CrossCategoryReachesCap | backend/ai/engine.py:163-187 | a pair of different categories can reach 0.95, because there is no category ceiling |
| Engine.NoImageCeiling | backend/ai/engine.py:146-187 | without image similarity, a different-category pair scores at most 0.55 and a same-category pair at most 0.7 |
| Engine.NoImagePairCeiling | backend/ai/engine.py:146-196 | for a pair where either image yields no features, the confidence is at most 0.55 across categories and 0.7 within one, so above a 0.55 threshold a cross-category pair is never a match |
| Engine.Round3Monotone | backend/ai/engine.py:191 | `round(x, 3)` does not decrease |
| Engine.Round3Close | backend/ai/engine.py:191 | `round(x, 3)` is within 0.0005 of x |
| Engine.Round3Exact | backend/ai/engine.py:191 | a multiple of 0.001 rounds to itself |
| Engine.MatchItems | backend/ai/engine.py:145-196 | `is_match` holds iff the clamped, unrounded confidence reaches the threshold |
| Engine.MatchScoreBounds | backend/ai/engine.py:187-191 | the reported confidence lies in [0, 0.95], within 0.0005 of the unrounded one; a match reports at least the rounded threshold |
| Engine.HigherConfidenceIsPreorder | backend/ai/engine.py:218 | the sort key of `batch_match` is a total preorder |
| Engine.QualifyingStep | backend/ai/engine.py:213-216 | each candidate in turn appends its scored entry exactly when it matches |
| Engine.QualifyingMembers | backend/ai/engine.py:212-216 | the kept entries are exactly the matching candidates, each with its own scores |
| Engine.QualifyingGrows | backend/ai/engine.py:213-216 | after each candidate, the entries collected so far followed by what the rest contribute are the whole qualifying list |
| Engine.TopMatches | backend/ai/engine.py:218-219 | the first top_k of the sorted matches are sorted, at most top_k, only matches with their own scores, and rank at least as high as every match left out |
| Engine.BatchMatch | backend/ai/engine.py:201-219 | the result is exactly the first top_k of the matches stably sorted by confidence: at most top_k entries, only matches with their candidate, non-increasing confidence, no left-out match ranked higher; `candidate_items or []` when `candidates` is None |
| Engine.ScoreAll | backend/ai/engine.py:212-216 | the loop collects exactly the matching candidates, in candidate order, each with its own scores |
| Store.Lookup | backend/database.py:117-122 | `get_item` finds a row with the id, or reports None exactly when no row has it |
| Store.LookupUnique | backend/database.py:117-122 | with unique ids, the row found is the only row with that id |
| Store.AsStored | backend/database.py:108-109 | a missing or empty feature list is stored as NULL, and all other columns are stored as given |
| Store.SetFeatures | backend/database.py:173-186 | the update sets only the two feature columns and `updated_at` of the rows with the id, and leaves every other row unchanged |
| Store.SetFeaturesLookup | backend/database.py:173-186 | after the update the ids stay unique, and reading the row back shows the new features with every other column unchanged |
| Store.NewerFirstIsPreorder | backend/database.py:137 | `ORDER BY created_at DESC` is a total preorder |
| Store.OlderFirstIsPreorder | backend/database.py:160 | `ORDER BY created_at ASC` is a total preorder |
| Store.HigherScoreFirstIsPreorder | backend/database.py:225 | `ORDER BY confidence_score DESC` is a total preorder |
| Store.LimitCount | backend/database.py:137 | `LIMIT` passes min(limit, rows) rows, or all of them for a negative limit |
| Store.NoLimitKeepsAll | backend/database.py:137 | with a negative limit every selected row is returned |
| Store.PendingRows | backend/database.py:154-162 | only active rows missing a feature column; oldest first; exactly min(limit, n) of the n such rows for limit ≥ 0, all of them for a negative limit; no left-out row is older than a returned one |
| Store.ListedRows | backend/database.py:130-136 | exactly the rows with the status, and with the type when it is given |
| Store.MatchInserted | backend/database.py:199-218 | `insert_match` leaves the table as it was or appends exactly the new row |
| Store.MatchInsertedStores | backend/database.py:199-218 | the row is appended iff neither its pair nor its id is stored yet; afterwards the pair is stored unless the id was taken |
| Store.InsertItemStatementRefused | backend/database.py:96-111 | the statement with 18 placeholders for 17 columns and 17 values is refused; one with 17 placeholders is accepted |
| Store.Database.constructor | backend/database.py:28-69 | on a new database file, the tables are empty and satisfy the key constraints |
| Store.Database.ExecuteInsertItem | backend/database.py:93-115 | True iff SQLite accepts the statement and the id is free; then the stored row is appended, otherwise nothing changes |
| Store.Database.InsertItem | backend/database.py:93-115 | as written: every call answers False and neither table changes, because the statement is refused |
| Store.Database.InsertItemCorrected | backend/database.py:93-115 | with one placeholder per column: False, with no change, iff the id is taken; otherwise the stored row is appended |
| Store.Database.GetAllItems | backend/database.py:130-140 | only rows with the status, and with the type when it is given; newest first; exactly min(limit, n) of the n such rows for limit ≥ 0, all of them for a negative limit; no left-out row is newer than a returned one |
| Store.Database.GetItemsWithoutFeatures | backend/database.py:154-171 | the loop returns the rows of the query, in order |
| Store.Database.UpdateItemFeatures | backend/database.py:173-186 | always true; only the three columns of the target row change; the match table is untouched |
| Store.Database.InsertMatch | backend/database.py:199-218 | an existing pair gives False and no change; a taken match id gives the integrity error and no change; otherwise exactly one row is added, True is returned, and the pair then exists; pairs stay unique |
| Store.Database.GetMatchesForItem | backend/database.py:220-227 | exactly the rows naming the item on either side, as a permutation of that selection, in non-increasing confidence |
| Validation.ValidatorsIgnoreCase | backend/models.py:115-125 | each validator gives the same answer for s and lower(s) |
| Validation.LowerCaseAcceptance | backend/models.py:104-125 | for lower-case input, exactly the ten categories, "lost"/"found", and "active"/"matched"/"closed" are accepted |
| Validation.LeadingSpaceRejected | backend/models.py:115-125 | input beginning with whitespace is rejected, because nothing is stripped |
| Validation.NotListed | backend/models.py:104-113 | a word beginning with whitespace is in none of the lists, whose words all begin with a letter |
| Validation.SpaceAnywhereRejected | backend/models.py:115-125 | input with whitespace at any position, leading, trailing or inside, is rejected by all three validators, because nothing is trimmed and no listed word holds whitespace |
| Validation.ItemTypeExamples | backend/models.py:119-121 | " lost" and "lost " are rejected, while "LOST" and "Found" are accepted |
| Validation.Bounds | backend/models.py:21-29 | each bounded field has min_length ≤ max_length |
| Validation.ItemCreateErrors | backend/models.py:19-29 | a field is reported iff its length is outside its bounds (title 3..100, description 10..1000, location 3..200, contact 5..100); no field is reported iff the request is valid |
| Agent.OppositeType | backend/ai/agent.py:93 | "found" iff the type is "lost", "lost" for any other value, and never the type itself |
| Agent.ImageFeaturesFor | backend/ai/agent.py:64-68 | no image features without a truthy image path |
| Agent.TextEmbeddingFor | backend/ai/agent.py:70-75 | no embedding when title and description are both blank |
| Agent.Notify | backend/ai/agent.py:145-169 | a notice iff confidence ≥ 0.80, and the notice carries that confidence and both contacts |
| Agent.RoundedScoreReachesGate | backend/ai/agent.py:150-157 | an unrounded score of 0.7996, below 0.80, is stored as 0.8 and passes the gate |
| Agent.SameIdSameRow | backend/database.py:33 | under the primary key, two rows with one id are the same row |
| Agent.CapitalisedLostIsFound | backend/ai/agent.py:195-198 | an item typed "Lost" is matched against lost items and stored on the found side |
| Agent.StoredUpTo | backend/ai/agent.py:120-142 | the table after storing the first i matches in turn only grows, by at most one row per match |
| Agent.NoticesUpTo | backend/ai/agent.py:145-169 | at most one notice per match, each at or above 0.80 |
| Agent.NoticesUpToSent | backend/ai/agent.py:145-169 | a match is notified iff its score reaches 0.80, and then its notice is among those sent |
| Agent.StoredUpToNewRows | backend/ai/agent.py:192-211 | every row the stores add is the row of one of the stored matches |
| Agent.StoredUpToMonotone | backend/ai/agent.py:192-211 | the table after fewer stores is a prefix of the table after more |
| Agent.StoredPair | backend/ai/agent.py:192-211 | after the stores, a match has its (lost, found) pair in the table unless its id was already taken when its turn came |
| Agent.StoredUpToPairs | backend/ai/agent.py:192-211 | the same for every stored match |
| Agent.FreshIdUnused | backend/ai/agent.py:123-137 | an id new to the table and different from the earlier ids is still free when its match's turn comes |
| Agent.AllPairsStored | backend/ai/agent.py:123-137 | with ids that are new and pairwise different, as `uuid4` provides, every match ends up with its pair stored |
| Agent.StoredUpToShape | backend/ai/agent.py:192-211 | every added row is oriented from the query's type, "pending", created = updated = now, and scores between the rounded threshold and 0.95 |
| Agent.FindoraAgent.constructor | backend/ai/agent.py:34-38 | the agent holds the engine, the threshold and the database it is given |
| Agent.FindoraAgent.Candidates | backend/ai/agent.py:93-101 | at most 100 candidates, each an active table row of the opposite type with both feature columns filled; never of the query's own type |
| Agent.FindoraAgent.ExtractFeatures | backend/ai/agent.py:58-87 | success iff both feature lists are non-empty; only then are they written, through `update_item_features`; otherwise nothing changes |
| Agent.FindoraAgent.FindMatches | backend/ai/agent.py:90-117 | exactly `MatchesFor(query)`, the first 5 of the qualifying candidates stably sorted by confidence; hence no candidates gives [], at most 5 results, each a matching candidate with its scores between the rounded threshold and 0.95, in non-increasing confidence, none ranked below a left-out match |
| Agent.FindoraAgent.StoreMatch | backend/ai/agent.py:120-142 | the table becomes `insert_match` of the "pending" row with the four scores unchanged and created = updated = now: appended, unless the pair or the id is taken |
| Agent.FindoraAgent.RecordOne | backend/ai/agent.py:196-211 | one turn of the loop: the table becomes `insert_match` of the match's oriented row, and the notice is the one `notify_users` gives |
| Agent.FindoraAgent.RecordMatches | backend/ai/agent.py:192-213 | the table is exactly `StoredUpTo` of the matches: the k-th match's row (id freshId(k), the lost and found ids from the query's type, its four scores, "pending", now, now) inserted in order; afterwards each match's (lost, found) pair is stored unless its id was already taken when its turn came; the notices are exactly the `notify_users` results of the matches, in order |
| Agent.FindoraAgent.ProcessItem | backend/ai/agent.py:172-216 | if extraction fails, nothing is stored; otherwise the table and the notices are exactly those of storing `MatchesFor` of the re-read item: at most 5 new rows, each oriented and pending, scoring at least the rounded threshold and not involving the same item twice; items change only through the feature update |
| Agent.FindoraAgent.MatchAndRecord | backend/ai/agent.py:184-213 | the table and notices are exactly those of storing `MatchesFor(query)`; at most 5 matches; every added row is oriented and pending |
| Api.Extension | backend/main.py:63 | the extension is a suffix of the file name |
| Api.ExtensionDotFree | backend/main.py:63 | the extension holds no dot |
| Api.ExtensionAfterDot | backend/main.py:63 | when the extension is shorter than the name, a dot stands right before it, so it is the text after the last dot |
| Api.ExtensionOfDotless | backend/main.py:63 | a name without a dot is its own extension |
| Api.ImageUrl | backend/main.py:62-70 | "/storage/images/" followed by `item_id.ext` |
| Api.ImageUrlResolves | backend/main.py:62-70 | a stored URL becomes a "storage/" path that the engine resolves under the backend directory |
| Api.NewItem | backend/main.py:136-152 | a reported item is "active", created == updated, and has no features |
| Api.ReportItem | backend/main.py:110-158 | type is checked before category; either failure gives 400 with no image saved; a valid report saves its image and, since `insert_item` as written always fails, answers 500; no row is ever written |
| Api.ReportItemCorrected | backend/main.py:110-158 | over the corrected insert: the same 400 answers; a valid report saves its image; a taken id gives 500; otherwise the new item is inserted and returned |
| Api.Stripped | backend/main.py:172-174 | the row without its two feature fields, with everything else kept |
| Api.InCategory | backend/main.py:169-170 | with a truthy category, exactly the rows of that category; otherwise all rows |
| Api.ListItems | backend/main.py:160-176 | each returned row has the status, the type and the category when given, and no features; at most `limit` rows |
| Api.StrippedRows | backend/main.py:172-174 | removing the feature fields keeps the status, type and category of every row |
| Api.GetItemResponse | backend/main.py:178-186 | 404 iff the id is unknown; otherwise the row without features |
| Api.GetMatches | backend/main.py:191-195 | the second sort leaves the store's order unchanged; the rows are exactly those of the item, by non-increasing confidence |
| Api.GetStats | backend/main.py:200-221 | the total is the number of the at most 1000 newest active rows, and the lost, found and matched counts are those among them; lost + found ≤ total; matched is always 0 |

## Left out

- Model loading and inference (TensorFlow, MobileNet, SentenceTransformer): the vision network and the encoder are opaque fields of `AIEngine`, and so is the division of an embedding by its norm.
- Floating point: every score is an exact `real`. `Engine.Round3` rounds the exact value half to even, while Python's `round` works on the binary double, so results can differ for values near a tie.
- The haversine formula, `exp`, `datetime.fromisoformat` and scikit-learn's `cosine_similarity`: opaque fields whose bounds are stated as predicates. Their exceptions are not modelled (a malformed timestamp or vectors of different lengths raise in the source, and `find_matches` then returns []).
- `os.path.abspath`, `os.path.normpath`, `os.path.exists` and image decoding: opaque fields. Only the `replace`/`lstrip`/`startswith`/`.avif` string logic is modelled.
- JSON: a feature column holds the decoded list, or `None` for NULL. `get_all_items` returns the columns as JSON text in the source. The only reader of those columns is the truthiness test in `find_matches`, which `Agent.FeaturesStored` models as "not NULL".
- Store.Database.UpdateItemFeatures: takes lists only. `json.dumps(None)` would store the text "null"; the agent never passes `None`.
- `update_item` (backend/database.py:142-149): a generic update that nothing in the modelled pipeline calls.
- SQLite specifics: the connection, `commit`, the SQL text and the indexes. The tie order of `ORDER BY` is unspecified in SQLite; the model keeps ties in insertion order. Foreign keys are not enforced by SQLite by default and are not modelled.
- The `users` table, `insert_user`, `get_user` and `register_user`: they are outside the matching pipeline.
- `observe_new_items`, `run_cycle`, `start`, `run_agent`, `asyncio.sleep`, `check_interval` and `is_running`: scheduling and console output. `process_item` is modelled as one sequential call.
- Exceptions caught by the agent's broad `except` clauses (for example a missing dictionary key): every record in the model has every field.
- Agent.FindoraAgent.ProcessItem: requires that the item is a row of the item table, since its only caller passes rows read from it. It uses one timestamp for every write, while the source reads the clock at each write.
- Agent.FindoraAgent.ProcessItem: `uuid4` is the parameter `freshId`. That its ids are new and pairwise different is the hypothesis of `Agent.AllPairsStored`; without it, a match whose id is taken is not stored, as in the source.
- Store.Database.constructor: models `create_tables` on a new database file. On an existing file `CREATE TABLE IF NOT EXISTS` keeps the rows, and the model then starts from any state that satisfies `Valid()`.
- Strings.Lower: `str.lower` is modelled on ASCII letters only; other characters are left unchanged.
- The HTTP layer: FastAPI routing, CORS, the static mount, copying the upload bytes to disk, the `ItemResponse` and `MatchResponse` conversions, `health_check` and the no-op `trigger_ai_processing`. `Api.ReportItem` returns the path of the saved image instead of writing the file. An upload without a filename is not modelled.

## Findings

| source | as written | input that shows it | evidently intended | confidence | as-written member | corrected member |
|---|---|---|---|---|---|---|
| backend/database.py:96-99 | `INSERT INTO items VALUES` has 18 placeholders for the 17 columns of `items` and the 17 values bound, so SQLite refuses it and `insert_item` returns False | any item, for example the one a valid report builds | one placeholder per column | high; not executed | Store.Database.InsertItem | Store.Database.InsertItemCorrected |
| backend/main.py:154-155 | `report_item` answers 500 whenever `insert_item` returns False, which is every time, after the image is already saved | any report with a valid type and category | the item is stored and returned | high; not executed | Api.ReportItem | Api.ReportItemCorrected |
