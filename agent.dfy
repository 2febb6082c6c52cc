/** The autonomous agent of backend/ai/agent.py: feature extraction, candidate
    selection, storing each match as a (lost, found) pair and the
    notification gate. Printing stands for sending a notification; the model
    returns the notifications instead. */
module Agent {
  import opened Wrappers
  import opened Strings
  import opened Lists
  import opened Schema
  import opened Engine
  import opened Store

  /** `EMAIL_CONFIDENCE_THRESHOLD`. */
  const EmailConfidenceThreshold: real := 0.80

  /** The `limit` of the candidate read in `find_matches`. */
  const CandidateLimit: int := 100

  /** The `top_k` that `find_matches` passes to `batch_match`. */
  const TopK: int := 5

  /** The type of the items a query is compared with. */
  function OppositeType(itemType: string): (r: string)
    ensures r == "found" <==> itemType == "lost"
    ensures r == "lost" <==> itemType != "lost"
    ensures r != itemType
  {
    if itemType == "lost" then "found" else "lost"
  }

  /** `c.get("image_features") and c.get("text_embedding")` on a row of
      `get_all_items`, which leaves both columns as JSON text: the text is
      truthy exactly when the column is not NULL. */
  predicate FeaturesStored(c: Item) {
    c.imageFeatures.Some? && c.textEmbedding.Some?
  }

  /** `not item.get("image_features") or not item.get("text_embedding")` on a
      decoded row. */
  predicate NeedsFeatures(item: Item) {
    !HasVector(item.imageFeatures) || !HasVector(item.textEmbedding)
  }

  /** The image features `extract_features` computes: only for a truthy
      image path. */
  function ImageFeaturesFor(e: AIEngine, item: Item): (f: Option<Vector>)
    ensures !HasText(item.imagePath) ==> f.None?
  {
    if HasText(item.imagePath) then ExtractImageFeatures(e, item.imagePath) else None
  }

  /** The text embedding `extract_features` computes: only when title and
      description are not both blank. */
  function TextEmbeddingFor(e: AIEngine, item: Item): (f: Option<Vector>)
    ensures IsBlank(item.title) && IsBlank(item.description) ==> f.None?
  {
    var text := TextOf(item);
    assert IsBlank(item.title) && IsBlank(item.description) ==> IsBlank(text) by {
      if IsBlank(item.title) && IsBlank(item.description) {
        forall i | 0 <= i < |text| ensures IsSpace(text[i]) {
          if i < |item.title| {
            assert text[i] == item.title[i];
          } else if i > |item.title| {
            assert text[i] == item.description[i - |item.title| - 1];
          }
        }
      }
    }
    if IsBlank(text) then None else ExtractTextEmbedding(e, text)
  }

  /** Extraction succeeds exactly when both results are truthy lists. */
  predicate Extractable(e: AIEngine, item: Item) {
    HasVector(ImageFeaturesFor(e, item)) && HasVector(TextEmbeddingFor(e, item))
  }

  /** What `notify_users` sends: the titles, the confidence and both contacts. */
  datatype Notice = Notice(lostTitle: string, foundTitle: string, confidence: real,
                           lostContact: string, foundContact: string)

  /** `notify_users`: a notice only when the stored confidence reaches the
      e-mail threshold, and then one that carries both parties' contacts. */
  function Notify(confidence: real, lost: Item, found: Item): (n: Option<Notice>)
    ensures n.Some? <==> confidence >= EmailConfidenceThreshold
    ensures n.Some? ==> n.value.confidence == confidence
                        && n.value.lostContact == lost.contactInfo
                        && n.value.foundContact == found.contactInfo
  {
    if confidence < EmailConfidenceThreshold then None
    else Some(Notice(lost.title, found.title, confidence, lost.contactInfo, found.contactInfo))
  }

  /** A pair scored 0.7996 before rounding is stored as 0.8 and notified,
      although its unrounded confidence is below the threshold. */
  lemma RoundedScoreReachesGate(lost: Item, found: Item)
    ensures 0.7996 < EmailConfidenceThreshold
    ensures Round3(0.7996) == 0.8
    ensures Notify(Round3(0.7996), lost, found).Some?
  {
    assert 0.7996 * 1000.0 == 799.6;
    assert (799.6).Floor == 799;
  }

  /** A stored match row lies on the side the query item's type says: the
      query's id is the lost id exactly when the query is a lost item, and
      the other side is a different item. */
  predicate Oriented(row: Match, query: Item) {
    if query.itemType == "lost" then row.lostItemId == query.itemId && row.foundItemId != query.itemId
    else row.foundItemId == query.itemId && row.lostItemId != query.itemId
  }

  /** A row `store_match` wrote at time `now` for a result that matched at
      `threshold`. */
  predicate StoredAt(row: Match, now: string, threshold: real) {
    && row.status == "pending" && row.createdAt == now && row.updatedAt == now
    && Round3(threshold) <= row.confidenceScore <= 0.95
  }

  /** Two rows of a table with unique ids that share an id are the same row. */
  lemma SameIdSameRow(items: seq<Item>, a: Item, b: Item)
    requires UniqueItemIds(items)
    requires a in items && b in items && a.itemId == b.itemId
    ensures a == b
  {
    LookupUnique(items, a);
    LookupUnique(items, b);
  }

  /** `item_type` is validated ignoring case but stored as typed, and the
      agent compares it with "lost" exactly: an item reported as "Lost" is
      compared with the lost items and stored on the found side. */
  lemma CapitalisedLostIsFound(query: Item, row: Match)
    requires query.itemType == "Lost"
    requires Oriented(row, query)
    ensures OppositeType(query.itemType) == "lost"
    ensures row.foundItemId == query.itemId
  {
  }

  /** The (lost, found) pair `process_item` forms from the query and one of
      its matches. */
  function LostAndFound(query: Item, other: Item): (Item, Item) {
    if query.itemType == "lost" then (query, other) else (other, query)
  }

  /** The row `store_match` writes for the match `x` of `query`. */
  function MatchRow(query: Item, x: Scored, matchId: string, now: string): Match {
    var (lost, found) := LostAndFound(query, x.item);
    Match(matchId, lost.itemId, found.itemId, x.result.confidenceScore, x.result.imageSimilarity,
          x.result.textSimilarity, x.result.locationScore, "pending", now, now)
  }

  /** What `notify_users` sends for the match `x` of `query`. */
  function NoticeFor(query: Item, x: Scored): Option<Notice> {
    var (lost, found) := LostAndFound(query, x.item);
    Notify(x.result.confidenceScore, lost, found)
  }

  /** The match table after `store_match` has run for the first `i` matches
      in order, the k-th with the id `freshId(k)`. It only grows, by at most
      one row per match. */
  function StoredUpTo(table: seq<Match>, query: Item, xs: seq<Scored>, i: nat, now: string,
                      freshId: nat -> string): (r: seq<Match>)
    requires i <= |xs|
    ensures table <= r && |r| <= |table| + i
  {
    if i == 0 then table
    else MatchInserted(StoredUpTo(table, query, xs, i - 1, now, freshId),
                       MatchRow(query, xs[i - 1], freshId(i - 1), now))
  }

  /** The notices sent for the first `i` matches, in order: at most one per
      match, each at or above the e-mail threshold. */
  function NoticesUpTo(query: Item, xs: seq<Scored>, i: nat): (r: seq<Notice>)
    requires i <= |xs|
    ensures |r| <= i
    ensures forall n :: n in r ==> n.confidence >= EmailConfidenceThreshold
  {
    if i == 0 then []
    else
      var n := NoticeFor(query, xs[i - 1]);
      NoticesUpTo(query, xs, i - 1) + (if n.Some? then [n.value] else [])
  }

  /** A match whose score reaches the e-mail threshold is notified, with
      both parties' contacts; one below it is not. */
  lemma {:induction false} NoticesUpToSent(query: Item, xs: seq<Scored>, i: nat, k: nat)
    requires k < i <= |xs|
    ensures NoticeFor(query, xs[k]).Some? <==> xs[k].result.confidenceScore >= EmailConfidenceThreshold
    ensures NoticeFor(query, xs[k]).Some? ==> NoticeFor(query, xs[k]).value in NoticesUpTo(query, xs, i)
  {
    if k < i - 1 {
      NoticesUpToSent(query, xs, i - 1, k);
    }
  }

  /** The rows `store_match` writes for the first `i` matches, when each is
      new. */
  function RowsFor(query: Item, xs: seq<Scored>, i: nat, now: string, freshId: nat -> string): seq<Match>
    requires i <= |xs|
  {
    seq(i, k requires 0 <= k < i => MatchRow(query, xs[k], freshId(k), now))
  }

  /** Every row the first `i` stores add is the row of one of those
      matches. */
  lemma {:induction false} StoredUpToNewRows(table: seq<Match>, query: Item, xs: seq<Scored>, i: nat,
                                             now: string, freshId: nat -> string)
    requires i <= |xs|
    ensures forall j :: |table| <= j < |StoredUpTo(table, query, xs, i, now, freshId)| ==>
              StoredUpTo(table, query, xs, i, now, freshId)[j] in RowsFor(query, xs, i, now, freshId)
  {
    if i > 0 {
      StoredUpToNewRows(table, query, xs, i - 1, now, freshId);
      var prev := StoredUpTo(table, query, xs, i - 1, now, freshId);
      var r := StoredUpTo(table, query, xs, i, now, freshId);
      var rows, rows' := RowsFor(query, xs, i - 1, now, freshId), RowsFor(query, xs, i, now, freshId);
      assert rows' == rows + [MatchRow(query, xs[i - 1], freshId(i - 1), now)];
      forall j | |table| <= j < |r|
        ensures r[j] in rows'
      {
        if j < |prev| {
          assert r[j] == prev[j] && prev[j] in rows;
        } else {
          assert r[j] == MatchRow(query, xs[i - 1], freshId(i - 1), now);
        }
      }
    }
  }

  /** The table after fewer stores is a prefix of the table after more. */
  lemma {:induction false} StoredUpToMonotone(table: seq<Match>, query: Item, xs: seq<Scored>, j: nat, i: nat,
                                              now: string, freshId: nat -> string)
    requires j <= i <= |xs|
    ensures StoredUpTo(table, query, xs, j, now, freshId) <= StoredUpTo(table, query, xs, i, now, freshId)
  {
    if j < i {
      StoredUpToMonotone(table, query, xs, j, i - 1, now, freshId);
    }
  }

  /** A member of a prefix is a member of the whole. */
  lemma PrefixMember<T>(prefix: seq<T>, s: seq<T>, x: T)
    requires prefix <= s && x in prefix
    ensures x in s
  {
    var j :| 0 <= j < |prefix| && prefix[j] == x;
    assert s[j] == x;
  }

  /** After the first `i` stores, the k-th match has its (lost, found) pair
      in the table, unless its id was already taken when its turn came. */
  lemma StoredPair(table: seq<Match>, query: Item, xs: seq<Scored>, k: nat, i: nat, now: string,
                   freshId: nat -> string)
    requires k < i <= |xs|
    ensures var row := MatchRow(query, xs[k], freshId(k), now);
            || PairTaken(StoredUpTo(table, query, xs, i, now, freshId), row.lostItemId, row.foundItemId)
            || HasMatchId(StoredUpTo(table, query, xs, k, now, freshId), row.matchId)
  {
    var row := MatchRow(query, xs[k], freshId(k), now);
    var after := StoredUpTo(table, query, xs, k + 1, now, freshId);
    MatchInsertedStores(StoredUpTo(table, query, xs, k, now, freshId), row);
    StoredUpToMonotone(table, query, xs, k + 1, i, now, freshId);
    if PairTaken(after, row.lostItemId, row.foundItemId) {
      var m :| m in after && m.lostItemId == row.lostItemId && m.foundItemId == row.foundItemId;
      PrefixMember(after, StoredUpTo(table, query, xs, i, now, freshId), m);
    }
  }

  /** `StoredPair` for every one of the first `i` matches. */
  lemma StoredUpToPairs(table: seq<Match>, query: Item, xs: seq<Scored>, i: nat, now: string,
                        freshId: nat -> string)
    requires i <= |xs|
    ensures forall k :: 0 <= k < i ==>
              var row := MatchRow(query, xs[k], freshId(k), now);
              || PairTaken(StoredUpTo(table, query, xs, i, now, freshId), row.lostItemId, row.foundItemId)
              || HasMatchId(StoredUpTo(table, query, xs, k, now, freshId), row.matchId)
  {
    forall k | 0 <= k < i
      ensures var row := MatchRow(query, xs[k], freshId(k), now);
              || PairTaken(StoredUpTo(table, query, xs, i, now, freshId), row.lostItemId, row.foundItemId)
              || HasMatchId(StoredUpTo(table, query, xs, k, now, freshId), row.matchId)
    {
      StoredPair(table, query, xs, k, i, now, freshId);
    }
  }

  /** An id that is new to the table and differs from the ids of the
      earlier matches is still free when its match's turn comes. */
  lemma FreshIdUnused(table: seq<Match>, query: Item, xs: seq<Scored>, k: nat, now: string,
                      freshId: nat -> string)
    requires k < |xs|
    requires !HasMatchId(table, freshId(k))
    requires forall l :: 0 <= l < k ==> freshId(l) != freshId(k)
    ensures !HasMatchId(StoredUpTo(table, query, xs, k, now, freshId), freshId(k))
  {
    var before := StoredUpTo(table, query, xs, k, now, freshId);
    var written := RowsFor(query, xs, k, now, freshId);
    StoredUpToNewRows(table, query, xs, k, now, freshId);
    forall j | 0 <= j < |before|
      ensures before[j].matchId != freshId(k)
    {
      if j < |table| {
        assert before[j] == table[j];
        assert table[j] in table;
      } else {
        assert before[j] in written;
        var l :| 0 <= l < k && written[l] == before[j];
      }
    }
  }

  /** With ids that are new to the table and pairwise different, as `uuid4`
      provides, every match ends up with its (lost, found) pair stored. */
  lemma AllPairsStored(table: seq<Match>, query: Item, xs: seq<Scored>, now: string, freshId: nat -> string)
    requires forall k :: 0 <= k < |xs| ==> !HasMatchId(table, freshId(k))
    requires forall k, l :: 0 <= k < l < |xs| ==> freshId(k) != freshId(l)
    ensures forall k :: 0 <= k < |xs| ==>
              var row := MatchRow(query, xs[k], freshId(k), now);
              PairTaken(StoredUpTo(table, query, xs, |xs|, now, freshId), row.lostItemId, row.foundItemId)
  {
    forall k | 0 <= k < |xs|
      ensures var row := MatchRow(query, xs[k], freshId(k), now);
              PairTaken(StoredUpTo(table, query, xs, |xs|, now, freshId), row.lostItemId, row.foundItemId)
    {
      FreshIdUnused(table, query, xs, k, now, freshId);
      StoredPair(table, query, xs, k, |xs|, now, freshId);
    }
  }

  /** Every row `store_match` writes for a match of `query` that is a
      different item of the other type, scored as a match at `threshold`, is
      oriented and pending. */
  lemma StoredUpToShape(table: seq<Match>, query: Item, xs: seq<Scored>, i: nat, now: string,
                        freshId: nat -> string, threshold: real, rows: seq<Item>)
    requires i <= |xs|
    requires UniqueItemIds(rows) && query in rows
    requires forall x :: x in xs ==>
               && x.item in rows && x.item.itemType != query.itemType
               && Round3(threshold) <= x.result.confidenceScore <= 0.95
    ensures var r := StoredUpTo(table, query, xs, i, now, freshId);
            forall j :: |table| <= j < |r| ==> Oriented(r[j], query) && StoredAt(r[j], now, threshold)
  {
    var r := StoredUpTo(table, query, xs, i, now, freshId);
    StoredUpToNewRows(table, query, xs, i, now, freshId);
    forall j | |table| <= j < |r|
      ensures Oriented(r[j], query) && StoredAt(r[j], now, threshold)
    {
      var written := RowsFor(query, xs, i, now, freshId);
      assert r[j] in written;
      var k :| 0 <= k < i && written[k] == r[j];
      assert r[j] == MatchRow(query, xs[k], freshId(k), now);
      assert xs[k] in xs;
      if xs[k].item.itemId == query.itemId {
        SameIdSameRow(rows, xs[k].item, query);
      }
    }
  }

  class FindoraAgent {
    const engine: AIEngine
    const matchThreshold: real
    const db: Database

    constructor (engine: AIEngine, matchThreshold: real, db: Database)
      ensures this.engine == engine && this.matchThreshold == matchThreshold && this.db == db
    {
      this.engine := engine;
      this.matchThreshold := matchThreshold;
      this.db := db;
    }

    /** The candidates `find_matches` scores: the newest 100 active items of
        the opposite type whose feature columns are both filled. */
    function Candidates(query: Item): (cs: seq<Item>)
      reads db`items
      ensures |cs| <= CandidateLimit
      ensures forall c :: c in cs ==> c in db.items && c.status == "active" && FeaturesStored(c)
                                      && c.itemType == OppositeType(query.itemType)
                                      && c.itemType != query.itemType
    {
      Filter(db.GetAllItems(Some(OppositeType(query.itemType)), "active", CandidateLimit), FeaturesStored)
    }

    /** The matches `find_matches` returns for `query`: the qualifying
        candidates, highest confidence first, at most five. */
    function MatchesFor(query: Item): seq<Scored>
      reads db`items
    {
      PyPrefix(SortBy(Qualifying(engine, query, Candidates(query), matchThreshold), HigherConfidence), TopK)
    }

    /** `extract_features`: success exactly when both the image features and
        the text embedding are non-empty lists; only then are they written. */
    method ExtractFeatures(item: Item, now: string) returns (ok: bool)
      requires db.Valid()
      modifies db
      ensures db.Valid()
      ensures ok <==> Extractable(engine, item)
      ensures ok ==> db.items == SetFeatures(old(db.items), item.itemId, ImageFeaturesFor(engine, item).value,
                                             TextEmbeddingFor(engine, item).value, now)
      ensures !ok ==> db.items == old(db.items)
      ensures db.matches == old(db.matches)
    {
      var imageFeatures: Option<Vector> := None;
      if HasText(item.imagePath) {
        var img := ExtractImageFeatures(engine, item.imagePath);
        if img.Some? {
          imageFeatures := img;
        }
      }
      var textEmbedding: Option<Vector> := None;
      var text := TextOf(item);
      if !IsBlank(text) {
        var emb := ExtractTextEmbedding(engine, text);
        if emb.Some? {
          textEmbedding := emb;
        }
      }
      if HasVector(imageFeatures) && HasVector(textEmbedding) {
        var updated := db.UpdateItemFeatures(item.itemId, imageFeatures.value, textEmbedding.value, now);
        if updated {
          return true;
        }
      }
      return false;
    }

    /** `find_matches`: no candidates gives no matches; otherwise
        `batch_match` over the candidates with the agent's threshold and
        top 5. */
    method FindMatches(query: Item) returns (r: seq<Scored>)
      ensures r == MatchesFor(query)
      ensures Candidates(query) == [] ==> r == []
      ensures |r| <= TopK
      ensures Sorted(r, HigherConfidence)
      ensures forall x :: x in r ==> x.item in Candidates(query) && x.result.isMatch
                                     && x.result == MatchItems(engine, query, x.item, matchThreshold)
      ensures forall x, y :: (x in r && y in Qualifying(engine, query, Candidates(query), matchThreshold)
                              && y !in r) ==> HigherConfidence(x, y)
      ensures forall x :: x in r ==> Round3(matchThreshold) <= x.result.confidenceScore <= 0.95
    {
      var candidates := Filter(db.GetAllItems(Some(OppositeType(query.itemType)), "active", CandidateLimit),
                               FeaturesStored);
      if candidates == [] {
        return [];
      }
      r := BatchMatch(engine, query, None, Some(candidates), matchThreshold, TopK);
      forall x | x in r
        ensures Round3(matchThreshold) <= x.result.confidenceScore <= 0.95
      {
        MatchScoreBounds(engine, query, x.item, matchThreshold);
      }
    }

    /** `store_match`: one `pending` row carrying the four scores unchanged;
        a pair that is already stored, or a match id that is already taken,
        leaves the table as it was. */
    method StoreMatch(lostId: string, foundId: string, scores: MatchResult, matchId: string, now: string)
      requires db.Valid()
      modifies db
      ensures db.Valid()
      ensures db.items == old(db.items)
      ensures db.matches == MatchInserted(old(db.matches), Match(matchId, lostId, foundId, scores.confidenceScore,
                                                                 scores.imageSimilarity, scores.textSimilarity,
                                                                 scores.locationScore, "pending", now, now))
    {
      var row := Match(matchId, lostId, foundId, scores.confidenceScore, scores.imageSimilarity,
                       scores.textSimilarity, scores.locationScore, "pending", now, now);
      var stored := db.InsertMatch(row);
    }

    /** `process_item` for a row of the item table: extract the features when
        they are missing (and stop when that fails), find at most five
        matches, store each as an oriented (lost, found) row and collect the
        notifications. The table only grows, by at most five rows, each
        pending and scored at least the rounded threshold. */
    method ProcessItem(item: Item, now: string, freshId: nat -> string) returns (notices: seq<Notice>)
      requires db.Valid()
      requires item in db.items
      modifies db
      ensures db.Valid()
      ensures old(db.matches) <= db.matches
      ensures |db.matches| <= |old(db.matches)| + TopK
      ensures forall k :: |old(db.matches)| <= k < |db.matches| ==>
                Oriented(db.matches[k], item) && StoredAt(db.matches[k], now, matchThreshold)
      ensures |notices| <= TopK
      ensures forall n :: n in notices ==> n.confidence >= EmailConfidenceThreshold
      ensures !NeedsFeatures(item) ==> db.items == old(db.items)
      ensures NeedsFeatures(item) && !Extractable(engine, item)
              ==> db.items == old(db.items) && db.matches == old(db.matches) && notices == []
      ensures NeedsFeatures(item) && Extractable(engine, item)
              ==> db.items == SetFeatures(old(db.items), item.itemId, ImageFeaturesFor(engine, item).value,
                                          TextEmbeddingFor(engine, item).value, now)
      ensures !NeedsFeatures(item) || Extractable(engine, item) ==>
                var query := if NeedsFeatures(item) then db.GetItem(item.itemId).GetOr(item) else item;
                && db.matches == StoredUpTo(old(db.matches), query, MatchesFor(query), |MatchesFor(query)|,
                                            now, freshId)
                && notices == NoticesUpTo(query, MatchesFor(query), |MatchesFor(query)|)
    {
      notices := [];
      var current := item;
      if NeedsFeatures(item) {
        var ok := ExtractFeatures(item, now);
        if !ok {
          return;
        }
        var refetched := db.GetItem(item.itemId);
        if refetched.None? {
          return;
        }
        SetFeaturesLookup(old(db.items), item, ImageFeaturesFor(engine, item).value,
                          TextEmbeddingFor(engine, item).value, now);
        current := refetched.value;
      }
      assert current in db.items && current.itemId == item.itemId && current.itemType == item.itemType;
      notices := MatchAndRecord(current, now, freshId);
      forall k | |old(db.matches)| <= k < |db.matches|
        ensures Oriented(db.matches[k], item)
      {
        assert Oriented(db.matches[k], current);
      }
    }

    /** The second half of `process_item`, for an item of the table whose
        features are in place: find its matches, store each as an oriented
        (lost, found) row and collect the notifications. */
    method MatchAndRecord(query: Item, now: string, freshId: nat -> string) returns (notices: seq<Notice>)
      requires db.Valid()
      requires query in db.items
      modifies db
      ensures db.Valid()
      ensures db.items == old(db.items)
      ensures db.matches == StoredUpTo(old(db.matches), query, MatchesFor(query), |MatchesFor(query)|, now, freshId)
      ensures notices == NoticesUpTo(query, MatchesFor(query), |MatchesFor(query)|)
      ensures |MatchesFor(query)| <= TopK
      ensures forall k :: |old(db.matches)| <= k < |db.matches| ==>
                Oriented(db.matches[k], query) && StoredAt(db.matches[k], now, matchThreshold)
    {
      var matches := FindMatches(query);
      if matches == [] {
        return [];
      }
      notices := RecordMatches(query, matches, now, freshId);
      StoredUpToShape(old(db.matches), query, matches, |matches|, now, freshId, matchThreshold, db.items);
    }

    /** One turn of the loop of `process_item`: store the match `x` of
        `query` as its (lost, found) row, then ask for its notice. */
    method RecordOne(query: Item, x: Scored, matchId: string, now: string) returns (notice: Option<Notice>)
      requires db.Valid()
      modifies db
      ensures db.Valid()
      ensures db.items == old(db.items)
      ensures db.matches == MatchInserted(old(db.matches), MatchRow(query, x, matchId, now))
      ensures notice == NoticeFor(query, x)
    {
      var (lost, found) := LostAndFound(query, x.item);
      StoreMatch(lost.itemId, found.itemId, x.result, matchId, now);
      notice := Notify(x.result.confidenceScore, lost, found);
    }

    /** The loop of `process_item` over the matches of `query`: each is
        stored in turn as an oriented (lost, found) row with its four scores,
        and notified when its score reaches the e-mail threshold. */
    method RecordMatches(query: Item, matches: seq<Scored>, now: string, freshId: nat -> string)
      returns (notices: seq<Notice>)
      requires db.Valid()
      modifies db
      ensures db.Valid()
      ensures db.items == old(db.items)
      ensures db.matches == StoredUpTo(old(db.matches), query, matches, |matches|, now, freshId)
      ensures notices == NoticesUpTo(query, matches, |matches|)
      ensures forall k :: 0 <= k < |matches| ==>
                var row := MatchRow(query, matches[k], freshId(k), now);
                || PairTaken(db.matches, row.lostItemId, row.foundItemId)
                || HasMatchId(StoredUpTo(old(db.matches), query, matches, k, now, freshId), row.matchId)
    {
      notices := [];
      ghost var before := db.matches;
      var i := 0;
      while i < |matches|
        invariant 0 <= i <= |matches|
        invariant db.Valid()
        invariant db.items == old(db.items)
        invariant db.matches == StoredUpTo(before, query, matches, i, now, freshId)
        invariant notices == NoticesUpTo(query, matches, i)
      {
        var notice := RecordOne(query, matches[i], freshId(i), now);
        if notice.Some? {
          notices := notices + [notice.value];
        }
        i := i + 1;
      }
      StoredUpToPairs(before, query, matches, |matches|, now, freshId);
    }
  }
}
