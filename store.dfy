/** The item and match tables of backend/database.py as an in-memory table.
    A row is kept in insertion order; a feature column holds the decoded list,
    `None` standing for SQL NULL. Reads that `ORDER BY` a column sort the rows
    stably, so rows that tie keep the order in which they were inserted. */
module Store {
  import opened Wrappers
  import opened Strings
  import opened Lists
  import opened Schema

  /** The error `sqlite3` raises out of `insert_match`: a `match_id` that is
      already a primary key of the table. */
  datatype DbError = IntegrityError

  // ---------------------------------------------------------------------
  // Table invariants
  // ---------------------------------------------------------------------

  /** `item_id TEXT PRIMARY KEY`. */
  predicate UniqueItemIds(items: seq<Item>) {
    forall i, j :: 0 <= i < j < |items| ==> items[i].itemId != items[j].itemId
  }

  /** `match_id TEXT PRIMARY KEY`. */
  predicate UniqueMatchIds(matches: seq<Match>) {
    forall i, j :: 0 <= i < j < |matches| ==> matches[i].matchId != matches[j].matchId
  }

  /** `UNIQUE(lost_item_id, found_item_id)`. */
  predicate UniquePairs(matches: seq<Match>) {
    forall i, j :: 0 <= i < j < |matches| ==>
      (matches[i].lostItemId, matches[i].foundItemId) != (matches[j].lostItemId, matches[j].foundItemId)
  }

  predicate HasItemId(items: seq<Item>, id: string) {
    exists x :: x in items && x.itemId == id
  }

  predicate HasMatchId(matches: seq<Match>, id: string) {
    exists m :: m in matches && m.matchId == id
  }

  /** A row for the ordered pair (lost, found) exists. */
  predicate PairTaken(matches: seq<Match>, lostId: string, foundId: string) {
    exists m :: m in matches && m.lostItemId == lostId && m.foundItemId == foundId
  }

  // ---------------------------------------------------------------------
  // Row helpers
  // ---------------------------------------------------------------------

  /** `SELECT * FROM items WHERE item_id = ?` with `fetchone`. */
  function Lookup(items: seq<Item>, id: string): (r: Option<Item>)
    ensures r.Some? ==> r.value in items && r.value.itemId == id
    ensures r.None? <==> !HasItemId(items, id)
  {
    if items == [] then None
    else if items[0].itemId == id then Some(items[0])
    else
      var r := Lookup(items[1..], id);
      assert forall x :: x in items[1..] ==> x in items;
      assert forall x :: x in items ==> x == items[0] || x in items[1..];
      r
  }

  /** In a table whose ids are unique, the row `Lookup` finds is the only row
      with that id. */
  lemma {:induction false} LookupUnique(items: seq<Item>, x: Item)
    requires UniqueItemIds(items)
    requires x in items
    ensures Lookup(items, x.itemId) == Some(x)
  {
    if items[0] != x {
      assert x in items[1..];
      var j :| 0 <= j < |items[1..]| && items[1..][j] == x;
      assert items[j + 1] == x;
      assert items[0].itemId != x.itemId;
      LookupUnique(items[1..], x);
    }
  }

  /** What `insert_item` writes: a feature list that is missing or empty is
      stored as NULL. */
  function AsStored(item: Item): (r: Item)
    ensures r.imageFeatures.Some? <==> HasVector(item.imageFeatures)
    ensures r.textEmbedding.Some? <==> HasVector(item.textEmbedding)
    ensures r.(imageFeatures := item.imageFeatures, textEmbedding := item.textEmbedding) == item
  {
    item.(imageFeatures := if HasVector(item.imageFeatures) then item.imageFeatures else None,
          textEmbedding := if HasVector(item.textEmbedding) then item.textEmbedding else None)
  }

  /** The rows after `UPDATE items SET image_features=?, text_embedding=?,
      updated_at=? WHERE item_id=?`. */
  function SetFeatures(items: seq<Item>, id: string, image: Vector, text: Vector, now: string): (r: seq<Item>)
    ensures |r| == |items|
    ensures forall i :: 0 <= i < |items| && items[i].itemId != id ==> r[i] == items[i]
    ensures forall i :: 0 <= i < |items| && items[i].itemId == id ==>
              r[i] == items[i].(imageFeatures := Some(image), textEmbedding := Some(text), updatedAt := now)
  {
    seq(|items|, i requires 0 <= i < |items| =>
      if items[i].itemId == id
      then items[i].(imageFeatures := Some(image), textEmbedding := Some(text), updatedAt := now)
      else items[i])
  }

  /** The update keeps the ids, and a later `get_item` of the updated id sees
      the new features and the old values of every other column. */
  lemma SetFeaturesLookup(items: seq<Item>, x: Item, image: Vector, text: Vector, now: string)
    requires UniqueItemIds(items)
    requires x in items
    ensures UniqueItemIds(SetFeatures(items, x.itemId, image, text, now))
    ensures Lookup(SetFeatures(items, x.itemId, image, text, now), x.itemId)
            == Some(x.(imageFeatures := Some(image), textEmbedding := Some(text), updatedAt := now))
  {
    var r := SetFeatures(items, x.itemId, image, text, now);
    var k :| 0 <= k < |items| && items[k] == x;
    assert r[k] == x.(imageFeatures := Some(image), textEmbedding := Some(text), updatedAt := now);
    LookupUnique(r, r[k]);
  }

  // ---------------------------------------------------------------------
  // Orderings and LIMIT
  // ---------------------------------------------------------------------

  /** `ORDER BY created_at DESC`. */
  predicate NewerFirst(a: Item, b: Item) {
    StrLe(b.createdAt, a.createdAt)
  }

  /** `ORDER BY created_at ASC`. */
  predicate OlderFirst(a: Item, b: Item) {
    StrLe(a.createdAt, b.createdAt)
  }

  /** `ORDER BY confidence_score DESC`. */
  predicate HigherScoreFirst(a: Match, b: Match) {
    a.confidenceScore >= b.confidenceScore
  }

  lemma NewerFirstIsPreorder()
    ensures TotalPreorder(NewerFirst)
  {
    forall a: Item, b: Item ensures NewerFirst(a, b) || NewerFirst(b, a) {
      StrLeTotal(a.createdAt, b.createdAt);
    }
    forall a: Item, b: Item, c: Item | NewerFirst(a, b) && NewerFirst(b, c) ensures NewerFirst(a, c) {
      StrLeTransitive(c.createdAt, b.createdAt, a.createdAt);
    }
  }

  lemma OlderFirstIsPreorder()
    ensures TotalPreorder(OlderFirst)
  {
    forall a: Item, b: Item ensures OlderFirst(a, b) || OlderFirst(b, a) {
      StrLeTotal(a.createdAt, b.createdAt);
    }
    forall a: Item, b: Item, c: Item | OlderFirst(a, b) && OlderFirst(b, c) ensures OlderFirst(a, c) {
      StrLeTransitive(a.createdAt, b.createdAt, c.createdAt);
    }
  }

  lemma HigherScoreFirstIsPreorder()
    ensures TotalPreorder(HigherScoreFirst)
  {
  }

  /** The number of rows `LIMIT limit` lets through: a negative limit means
      no limit. */
  function LimitCount(limit: int, available: nat): (n: nat)
    ensures n <= available
    ensures limit < 0 ==> n == available
    ensures limit >= 0 ==> n == if limit < available then limit else available
  {
    if limit < 0 || limit > available then available else limit
  }

  /** `LIMIT limit` on an ordered result. */
  function SqlLimit<T>(rows: seq<T>, limit: int): seq<T> {
    PyPrefix(rows, LimitCount(limit, |rows|))
  }

  /** Without a limit, an ordered read returns every row it selects. */
  lemma NoLimitKeepsAll<T>(rows: seq<T>, limit: int, before: (T, T) -> bool)
    ensures limit < 0 ==> forall y :: y in rows ==> y in SqlLimit(SortBy(rows, before), limit)
  {
    if limit < 0 {
      forall y | y in rows ensures y in SqlLimit(SortBy(rows, before), limit) {
        SortByMembers(rows, before, y);
      }
    }
  }

  // ---------------------------------------------------------------------
  // Filters
  // ---------------------------------------------------------------------

  /** `WHERE status = ? [AND item_type = ?]`; the type is compared only when
      the argument is truthy. */
  predicate Listed(x: Item, itemType: Option<string>, status: string) {
    x.status == status && (HasText(itemType) ==> x.itemType == itemType.value)
  }

  /** The rows `get_all_items` selects, in table order, before sorting and
      `LIMIT`. */
  function ListedRows(items: seq<Item>, itemType: Option<string>, status: string): (rows: seq<Item>)
    ensures forall x :: x in rows <==> x in items && Listed(x, itemType, status)
  {
    Filter(items, x => Listed(x, itemType, status))
  }

  /** `WHERE status='active' AND (image_features IS NULL OR text_embedding IS NULL)`. */
  predicate AwaitsFeatures(x: Item) {
    x.status == "active" && (x.imageFeatures.None? || x.textEmbedding.None?)
  }

  /** `WHERE lost_item_id=? OR found_item_id=?`. */
  predicate Involves(m: Match, itemId: string) {
    m.lostItemId == itemId || m.foundItemId == itemId
  }

  /** The SQL query of `get_items_without_features`. */
  function PendingRows(items: seq<Item>, limit: int): (r: seq<Item>)
    ensures |r| == LimitCount(limit, Count(items, AwaitsFeatures))
    ensures limit >= 0 ==> |r| == if limit < Count(items, AwaitsFeatures) then limit else Count(items, AwaitsFeatures)
    ensures Sorted(r, OlderFirst)
    ensures forall x :: x in r ==> x in items && AwaitsFeatures(x)
    ensures forall x, y :: (x in r && y in items && AwaitsFeatures(y) && y !in r) ==> OlderFirst(x, y)
    ensures limit < 0 ==> forall y :: y in items && AwaitsFeatures(y) ==> y in r
  {
    var rows := Filter(items, AwaitsFeatures);
    OlderFirstIsPreorder();
    TopOfSorted(rows, LimitCount(limit, |rows|), OlderFirst);
    NoLimitKeepsAll(rows, limit, OlderFirst);
    SqlLimit(SortBy(rows, OlderFirst), limit)
  }

  /** The match table after `insert_match` of `m`: unchanged, or one row
      longer with `m` at the end. */
  function MatchInserted(matches: seq<Match>, m: Match): (r: seq<Match>)
    ensures r == matches || r == matches + [m]
  {
    if PairTaken(matches, m.lostItemId, m.foundItemId) || HasMatchId(matches, m.matchId) then matches
    else matches + [m]
  }

  /** `insert_match` appends `m` exactly when neither its pair nor its id is
      stored yet; either way the pair is stored afterwards unless the id was
      already taken. */
  lemma MatchInsertedStores(matches: seq<Match>, m: Match)
    ensures MatchInserted(matches, m) != matches
            <==> !PairTaken(matches, m.lostItemId, m.foundItemId) && !HasMatchId(matches, m.matchId)
    ensures PairTaken(MatchInserted(matches, m), m.lostItemId, m.foundItemId) || HasMatchId(matches, m.matchId)
  {
    if !PairTaken(matches, m.lostItemId, m.foundItemId) && !HasMatchId(matches, m.matchId) {
      assert MatchInserted(matches, m)[|matches|] == m;
    }
  }

  // ---------------------------------------------------------------------
  // Item insertion
  // ---------------------------------------------------------------------

  /** The columns of the `items` table. */
  const ItemColumns: nat := 17

  /** The values `insert_item` supplies, one per column. */
  const ItemValues: nat := 17

  /** The `?` placeholders in the `INSERT INTO items VALUES (...)` statement
      of `insert_item` as written. */
  const InsertItemPlaceholders: nat := 18

  /** SQLite compiles `INSERT INTO items VALUES (...)` only with one
      placeholder per column, and `sqlite3` binds the parameters only when
      there is one value per placeholder. */
  predicate InsertStatementAccepted(placeholders: nat) {
    placeholders == ItemColumns && placeholders == ItemValues
  }

  /** The statement of `insert_item` as written is refused for every row,
      while the statement with one placeholder per column is accepted. */
  lemma InsertItemStatementRefused()
    ensures !InsertStatementAccepted(InsertItemPlaceholders)
    ensures InsertStatementAccepted(ItemColumns)
  {
  }

  // ---------------------------------------------------------------------
  // The database
  // ---------------------------------------------------------------------

  /** `Database`: the `items` and `matches` tables. The `users` table is not
      part of this model. */
  class Database {
    var items: seq<Item>
    var matches: seq<Match>

    /** The table constraints of `create_tables`. */
    ghost predicate Valid()
      reads this
    {
      UniqueItemIds(items) && UniqueMatchIds(matches) && UniquePairs(matches)
    }

    /** `create_tables` on a new database file: `CREATE TABLE IF NOT EXISTS`
        leaves an existing file's rows in place, and a state read from such a
        file is any `Database` that satisfies `Valid()`. */
    constructor ()
      ensures Valid()
      ensures items == [] && matches == []
    {
      items := [];
      matches := [];
    }

    /** The `INSERT INTO items` statement of `insert_item` with the given
        number of placeholders, inside its `try`: a statement SQLite refuses,
        or a taken id, raises, and the `except` answers `False` with the
        table unchanged; otherwise the stored row is appended. */
    method ExecuteInsertItem(item: Item, placeholders: nat) returns (ok: bool)
      requires Valid()
      modifies this
      ensures Valid()
      ensures ok <==> InsertStatementAccepted(placeholders) && !HasItemId(old(items), item.itemId)
      ensures ok ==> items == old(items) + [AsStored(item)]
      ensures !ok ==> items == old(items)
      ensures matches == old(matches)
    {
      if !InsertStatementAccepted(placeholders) {
        return false;
      }
      if Lookup(items, item.itemId).Some? {
        return false;
      }
      items := items + [AsStored(item)];
      ok := true;
    }

    /** `insert_item` as written: eighteen placeholders for seventeen
        columns, so every call answers `False` and writes nothing. */
    method InsertItem(item: Item) returns (ok: bool)
      requires Valid()
      modifies this
      ensures Valid()
      ensures !ok
      ensures items == old(items) && matches == old(matches)
    {
      InsertItemStatementRefused();
      ok := ExecuteInsertItem(item, InsertItemPlaceholders);
    }

    /** `insert_item` with one placeholder per column: the insert fails, and
        changes nothing, exactly when the id is already taken. */
    method InsertItemCorrected(item: Item) returns (ok: bool)
      requires Valid()
      modifies this
      ensures Valid()
      ensures ok <==> !HasItemId(old(items), item.itemId)
      ensures ok ==> items == old(items) + [AsStored(item)]
      ensures !ok ==> items == old(items)
      ensures matches == old(matches)
    {
      InsertItemStatementRefused();
      ok := ExecuteInsertItem(item, ItemColumns);
    }

    /** `get_item`. */
    function GetItem(itemId: string): Option<Item>
      reads this`items
    {
      Lookup(items, itemId)
    }

    /** `get_all_items`: the rows with the given status and, when the type
        argument is truthy, the given type, newest first, at most `limit`
        of them (all of them when `limit` is negative). A row left out is
        no newer than any row returned. */
    function GetAllItems(itemType: Option<string>, status: string, limit: int): (r: seq<Item>)
      reads this`items
      ensures |r| == LimitCount(limit, |ListedRows(items, itemType, status)|)
      ensures limit >= 0 ==> |r| == if limit < |ListedRows(items, itemType, status)| then limit
                                    else |ListedRows(items, itemType, status)|
      ensures Sorted(r, NewerFirst)
      ensures forall x :: x in r ==> x in items && Listed(x, itemType, status)
      ensures forall x, y :: (x in r && y in items && Listed(y, itemType, status) && y !in r)
                             ==> NewerFirst(x, y)
      ensures limit < 0 ==> forall y :: y in items && Listed(y, itemType, status) ==> y in r
    {
      var rows := ListedRows(items, itemType, status);
      NewerFirstIsPreorder();
      TopOfSorted(rows, LimitCount(limit, |rows|), NewerFirst);
      NoLimitKeepsAll(rows, limit, NewerFirst);
      SqlLimit(SortBy(rows, NewerFirst), limit)
    }

    /** `get_items_without_features`: the query result, decoded row by row
        into a new list. */
    method GetItemsWithoutFeatures(limit: int) returns (result: seq<Item>)
      ensures result == PendingRows(items, limit)
    {
      var rows := PendingRows(items, limit);
      result := [];
      for i := 0 to |rows|
        invariant result == rows[..i]
      {
        result := result + [rows[i]];
      }
    }

    /** `update_item_features`: always reports success; the target row gets
        the two feature lists and the new `updated_at`, nothing else
        changes. */
    method UpdateItemFeatures(itemId: string, image: Vector, text: Vector, now: string) returns (ok: bool)
      requires Valid()
      modifies this
      ensures Valid()
      ensures ok
      ensures items == SetFeatures(old(items), itemId, image, text, now)
      ensures matches == old(matches)
    {
      items := SetFeatures(items, itemId, image, text, now);
      ok := true;
    }

    /** `match_exists`. */
    function MatchExists(lostId: string, foundId: string): bool
      reads this
    {
      PairTaken(matches, lostId, foundId)
    }

    /** `insert_match`: `False` for a pair that is already stored, the
        primary-key error for a match id that is already taken, otherwise
        one new row and `True`. */
    method InsertMatch(m: Match) returns (r: Result<bool, DbError>)
      requires Valid()
      modifies this
      ensures Valid()
      ensures items == old(items)
      ensures PairTaken(old(matches), m.lostItemId, m.foundItemId) ==> r == Success(false) && matches == old(matches)
      ensures !PairTaken(old(matches), m.lostItemId, m.foundItemId) && HasMatchId(old(matches), m.matchId)
              ==> r == Failure(IntegrityError) && matches == old(matches)
      ensures !PairTaken(old(matches), m.lostItemId, m.foundItemId) && !HasMatchId(old(matches), m.matchId)
              ==> r == Success(true) && matches == old(matches) + [m]
      ensures r != Failure(IntegrityError) ==> MatchExists(m.lostItemId, m.foundItemId)
      ensures matches == MatchInserted(old(matches), m)
    {
      if MatchExists(m.lostItemId, m.foundItemId) {
        return Success(false);
      }
      if exists x :: x in matches && x.matchId == m.matchId {
        return Failure(IntegrityError);
      }
      ghost var before := matches;
      matches := matches + [m];
      assert m in matches;
      forall i, j | 0 <= i < j < |matches|
        ensures (matches[i].lostItemId, matches[i].foundItemId) != (matches[j].lostItemId, matches[j].foundItemId)
        ensures matches[i].matchId != matches[j].matchId
      {
        if j == |before| {
          assert matches[i] in before;
        }
      }
      r := Success(true);
    }

    /** `get_matches_for_item`: exactly the rows naming the item on either
        side, highest confidence first. */
    function GetMatchesForItem(itemId: string): (r: seq<Match>)
      reads this
      ensures multiset(r) == multiset(Filter(matches, m => Involves(m, itemId)))
      ensures forall m :: m in r <==> m in matches && Involves(m, itemId)
      ensures Sorted(r, HigherScoreFirst)
    {
      var rows := Filter(matches, m => Involves(m, itemId));
      HigherScoreFirstIsPreorder();
      SortBySorted(rows, HigherScoreFirst);
      assert forall m :: m in SortBy(rows, HigherScoreFirst) <==> m in rows by {
        forall m ensures m in SortBy(rows, HigherScoreFirst) <==> m in rows {
          SortByMembers(rows, HigherScoreFirst, m);
        }
      }
      SortBy(rows, HigherScoreFirst)
    }
  }
}
