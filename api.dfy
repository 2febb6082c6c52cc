/** The request handlers of backend/main.py, without the HTTP layer: the
    stored image name, the order of the checks in `report_item`, the filters
    of `list_items`, `get_item`, `get_matches` and `get_stats`. */
module Api {
  import opened Wrappers
  import opened Strings
  import opened Lists
  import opened Schema
  import opened Engine
  import opened Store
  import opened Validation

  /** An `HTTPException`: status code and detail. */
  datatype HttpError = HttpError(status: int, detail: string)

  /** The directory, relative to the backend, that holds uploaded images. */
  const ImagesDir: string := "storage/images/"

  /** The URL prefix under which uploaded images are served. */
  const ImagesUrl: string := "/" + ImagesDir

  // ---------------------------------------------------------------------
  // save_image
  // ---------------------------------------------------------------------

  /** `filename.split(".")[-1]`: a suffix of the name. */
  function Extension(name: string): (ext: string)
    ensures |ext| <= |name| && ext == name[|name| - |ext|..]
  {
    if name == [] then []
    else if name[|name| - 1] == '.' then []
    else
      var init := name[..|name| - 1];
      assert name == init + [name[|name| - 1]];
      Extension(init) + [name[|name| - 1]]
  }

  /** The extension holds no dot. */
  lemma {:induction false} ExtensionDotFree(name: string)
    ensures '.' !in Extension(name)
  {
    if name != [] && name[|name| - 1] != '.' {
      var init := name[..|name| - 1];
      ExtensionDotFree(init);
      assert Extension(name) == Extension(init) + [name[|name| - 1]];
    }
  }

  /** A proper extension follows a dot. */
  lemma {:induction false} ExtensionAfterDot(name: string)
    ensures |Extension(name)| < |name| ==> name[|name| - |Extension(name)| - 1] == '.'
  {
    if name != [] && name[|name| - 1] != '.' {
      var init := name[..|name| - 1];
      ExtensionAfterDot(init);
      var e := Extension(init);
      assert Extension(name) == e + [name[|name| - 1]];
      if |e| < |init| {
        assert name[|name| - |Extension(name)| - 1] == init[|init| - |e| - 1];
      }
    }
  }

  /** A name without a dot is its own extension. */
  lemma {:induction false} ExtensionOfDotless(name: string)
    requires '.' !in name
    ensures Extension(name) == name
  {
    if name != [] {
      var init := name[..|name| - 1];
      assert name == init + [name[|name| - 1]];
      assert '.' !in init;
      ExtensionOfDotless(init);
    }
  }

  /** The file name `save_image` writes, `item_id.ext`. */
  function ImageFileName(itemId: string, uploadName: string): string {
    itemId + "." + Extension(uploadName)
  }

  /** The path `save_image` returns. */
  function ImageUrl(itemId: string, uploadName: string): (url: string)
    ensures StartsWith(url, ImagesUrl)
    ensures url[|ImagesUrl|..] == ImageFileName(itemId, uploadName)
  {
    ImagesUrl + ImageFileName(itemId, uploadName)
  }

  /** A stored image URL is found again by the engine: when neither the id
      nor the upload name holds a backslash, stripping the leading slash
      gives a path under "storage/", which the engine resolves against the
      backend directory. */
  lemma ImageUrlResolves(itemId: string, uploadName: string)
    requires '\\' !in itemId && '\\' !in uploadName
    ensures RelativeImagePath(ImageUrl(itemId, uploadName)) == ImagesDir + ImageFileName(itemId, uploadName)
    ensures StartsWith(RelativeImagePath(ImageUrl(itemId, uploadName)), "storage/")
  {
    var rest := ImagesDir + ImageFileName(itemId, uploadName);
    ImagePathClean(itemId, uploadName);
    ImageUrlRooted(itemId, uploadName);
    UnderStorage(ImageFileName(itemId, uploadName));
    RootedPath(rest);
  }

  /** The stored path below the images URL holds no backslash. */
  lemma ImagePathClean(itemId: string, uploadName: string)
    requires '\\' !in itemId && '\\' !in uploadName
    ensures '\\' !in ImagesDir + ImageFileName(itemId, uploadName)
  {
    ImagesDirClean();
    FileNameClean(itemId, uploadName);
  }

  /** The images directory is written with forward slashes only. */
  lemma ImagesDirClean()
    ensures '\\' !in ImagesDir
  {
  }

  /** A file name built from clean parts is clean. */
  lemma FileNameClean(itemId: string, uploadName: string)
    requires '\\' !in itemId && '\\' !in uploadName
    ensures '\\' !in ImageFileName(itemId, uploadName)
  {
    ExtensionClean(uploadName);
  }

  /** An extension is a suffix of the upload name. */
  lemma ExtensionClean(uploadName: string)
    requires '\\' !in uploadName
    ensures '\\' !in Extension(uploadName)
  {
  }

  /** The images URL is the images directory behind one slash. */
  lemma ImageUrlRooted(itemId: string, uploadName: string)
    ensures ImageUrl(itemId, uploadName) == "/" + (ImagesDir + ImageFileName(itemId, uploadName))
  {
    ConcatAssoc("/", ImagesDir, ImageFileName(itemId, uploadName));
  }

  /** Everything below the images directory lies under "storage/". */
  lemma UnderStorage(n: string)
    ensures StartsWith(ImagesDir + n, "storage/")
  {
    assert ImagesDir[..8] == "storage/";
    assert (ImagesDir + n)[..8] == ImagesDir[..8];
  }

  // ---------------------------------------------------------------------
  // report_item
  // ---------------------------------------------------------------------

  /** The form fields of `report_item` other than the upload. */
  datatype ReportForm = ReportForm(
    title: string,
    description: string,
    category: string,
    location: string,
    latitude: Option<real>,
    longitude: Option<real>,
    itemType: string,
    rewardAmount: real,
    contactInfo: string,
    userId: string)

  /** The record `report_item` inserts and returns. */
  function NewItem(form: ReportForm, itemId: string, ts: string, imagePath: string): (item: Item)
    ensures item.status == "active" && item.createdAt == ts && item.updatedAt == ts
    ensures item.imageFeatures.None? && item.textEmbedding.None?
    ensures AsStored(item) == item
  {
    Item(itemId, form.userId, form.title, form.description, form.category, form.location,
         form.latitude, form.longitude, form.itemType, form.rewardAmount, form.contactInfo,
         Some(imagePath), "active", ts, ts, None, None)
  }

  /** `report_item` as written: the item type is checked first, then the
      category; either failure answers 400 before any image is saved or any
      row is written. Otherwise the image is saved and `insert_item` is
      called, which as written never inserts, so every valid report answers
      500 with its image saved and no row written. `savedImage` is the path
      of the image written, if any. */
  method ReportItem(db: Database, form: ReportForm, uploadName: string, itemId: string, ts: string)
    returns (r: Result<Item, HttpError>, savedImage: Option<string>)
    requires db.Valid()
    modifies db
    ensures db.Valid()
    ensures db.items == old(db.items) && db.matches == old(db.matches)
    ensures !ValidateItemType(form.itemType)
            ==> r == Failure(HttpError(400, "Invalid item type")) && savedImage.None?
    ensures ValidateItemType(form.itemType) && !ValidateCategory(form.category)
            ==> r == Failure(HttpError(400, "Invalid category")) && savedImage.None?
    ensures ValidateItemType(form.itemType) && ValidateCategory(form.category)
            ==> r == Failure(HttpError(500, "Item submission failed"))
                && savedImage == Some(ImageUrl(itemId, uploadName))
  {
    savedImage := None;
    if !ValidateItemType(form.itemType) {
      return Failure(HttpError(400, "Invalid item type")), savedImage;
    }
    if !ValidateCategory(form.category) {
      return Failure(HttpError(400, "Invalid category")), savedImage;
    }
    var imagePath := ImageUrl(itemId, uploadName);
    savedImage := Some(imagePath);
    var item := NewItem(form, itemId, ts, imagePath);
    var inserted := db.InsertItem(item);
    if !inserted {
      return Failure(HttpError(500, "Item submission failed")), savedImage;
    }
    r := Success(item);
  }

  /** `report_item` over `insert_item` with one placeholder per column: the
      same checks, then a taken id answers 500 and a fresh one inserts the
      new item and returns it. */
  method ReportItemCorrected(db: Database, form: ReportForm, uploadName: string, itemId: string, ts: string)
    returns (r: Result<Item, HttpError>, savedImage: Option<string>)
    requires db.Valid()
    modifies db
    ensures db.Valid()
    ensures db.matches == old(db.matches)
    ensures !ValidateItemType(form.itemType)
            ==> r == Failure(HttpError(400, "Invalid item type")) && savedImage.None? && db.items == old(db.items)
    ensures ValidateItemType(form.itemType) && !ValidateCategory(form.category)
            ==> r == Failure(HttpError(400, "Invalid category")) && savedImage.None? && db.items == old(db.items)
    ensures ValidateItemType(form.itemType) && ValidateCategory(form.category)
            ==> savedImage == Some(ImageUrl(itemId, uploadName))
    ensures ValidateItemType(form.itemType) && ValidateCategory(form.category) && HasItemId(old(db.items), itemId)
            ==> r == Failure(HttpError(500, "Item submission failed")) && db.items == old(db.items)
    ensures ValidateItemType(form.itemType) && ValidateCategory(form.category) && !HasItemId(old(db.items), itemId)
            ==> r == Success(NewItem(form, itemId, ts, ImageUrl(itemId, uploadName)))
                && db.items == old(db.items) + [r.value]
  {
    savedImage := None;
    if !ValidateItemType(form.itemType) {
      return Failure(HttpError(400, "Invalid item type")), savedImage;
    }
    if !ValidateCategory(form.category) {
      return Failure(HttpError(400, "Invalid category")), savedImage;
    }
    var imagePath := ImageUrl(itemId, uploadName);
    savedImage := Some(imagePath);
    var item := NewItem(form, itemId, ts, imagePath);
    var inserted := db.InsertItemCorrected(item);
    if !inserted {
      return Failure(HttpError(500, "Item submission failed")), savedImage;
    }
    r := Success(item);
  }

  // ---------------------------------------------------------------------
  // list_items and get_item
  // ---------------------------------------------------------------------

  /** A row after `pop("image_features")` and `pop("text_embedding")`. */
  function Stripped(x: Item): (y: Item)
    ensures y.imageFeatures.None? && y.textEmbedding.None?
    ensures y.(imageFeatures := x.imageFeatures, textEmbedding := x.textEmbedding) == x
  {
    x.(imageFeatures := None, textEmbedding := None)
  }

  /** `[i for i in items if i["category"] == category]` when the category is
      truthy, every row otherwise. */
  function InCategory(rows: seq<Item>, category: Option<string>): (r: seq<Item>)
    ensures HasText(category) ==> forall x :: x in r <==> x in rows && x.category == category.value
    ensures !HasText(category) ==> r == rows
  {
    if HasText(category) then Filter(rows, (x: Item) => x.category == category.value) else rows
  }

  /** `list_items`: the rows of `get_all_items`, narrowed to the category
      when one is given, each stripped of its features. */
  method ListItems(db: Database, itemType: Option<string>, category: Option<string>, status: string, limit: int)
    returns (r: seq<Item>)
    ensures var rows := InCategory(db.GetAllItems(itemType, status, limit), category);
            |r| == |rows| && forall k :: 0 <= k < |r| ==> r[k] == Stripped(rows[k])
    ensures limit >= 0 ==> |r| <= limit
    ensures forall x :: x in r ==> x.status == status && x.imageFeatures.None? && x.textEmbedding.None?
    ensures HasText(category) ==> forall x :: x in r ==> x.category == category.value
    ensures HasText(itemType) ==> forall x :: x in r ==> x.itemType == itemType.value
  {
    var items := db.GetAllItems(itemType, status, limit);
    if HasText(category) {
      items := Filter(items, (x: Item) => x.category == category.value);
    }
    ghost var rows := items;
    assert rows == InCategory(db.GetAllItems(itemType, status, limit), category);
    var i := 0;
    while i < |items|
      invariant 0 <= i <= |items| == |rows|
      invariant forall k :: 0 <= k < i ==> items[k] == Stripped(rows[k])
      invariant forall k :: i <= k < |items| ==> items[k] == rows[k]
    {
      items := items[i := Stripped(items[i])];
      i := i + 1;
    }
    r := items;
    StrippedRows(rows, r, itemType, status, category);
  }

  /** Stripping keeps the status, type and category of every row. */
  lemma StrippedRows(rows: seq<Item>, r: seq<Item>, itemType: Option<string>, status: string,
                     category: Option<string>)
    requires |r| == |rows| && forall k :: 0 <= k < |r| ==> r[k] == Stripped(rows[k])
    requires forall x :: x in rows ==> Listed(x, itemType, status)
    requires HasText(category) ==> forall x :: x in rows ==> x.category == category.value
    ensures forall x :: x in r ==> x.status == status && x.imageFeatures.None? && x.textEmbedding.None?
    ensures HasText(category) ==> forall x :: x in r ==> x.category == category.value
    ensures HasText(itemType) ==> forall x :: x in r ==> x.itemType == itemType.value
  {
    forall x | x in r
      ensures Listed(x, itemType, status) && x.imageFeatures.None? && x.textEmbedding.None?
      ensures HasText(category) ==> x.category == category.value
    {
      var k :| 0 <= k < |r| && r[k] == x;
      assert rows[k] in rows;
    }
  }

  /** The `get_item` handler: 404 for an unknown id, otherwise the row
      without its features. */
  function GetItemResponse(db: Database, itemId: string): (r: Result<Item, HttpError>)
    reads db
    ensures r.Failure? <==> !HasItemId(db.items, itemId)
    ensures r.Failure? ==> r.error == HttpError(404, "Item not found")
    ensures r.Success? ==> r.value.itemId == itemId && r.value.imageFeatures.None? && r.value.textEmbedding.None?
                           && Stripped(db.GetItem(itemId).value) == r.value
  {
    match db.GetItem(itemId)
    case None => Failure(HttpError(404, "Item not found"))
    case Some(x) => Success(Stripped(x))
  }

  // ---------------------------------------------------------------------
  // get_matches and get_stats
  // ---------------------------------------------------------------------

  /** `get_matches`: the store's rows sorted again, stably, by descending
      confidence; the store already returns them in that order, so the
      second sort leaves the list as it was. */
  method GetMatches(db: Database, itemId: string) returns (r: seq<Match>)
    ensures r == db.GetMatchesForItem(itemId)
    ensures Sorted(r, HigherScoreFirst)
    ensures forall m :: m in r <==> m in db.matches && Involves(m, itemId)
  {
    var matches := db.GetMatchesForItem(itemId);
    SortByOfSorted(matches, HigherScoreFirst);
    matches := SortBy(matches, HigherScoreFirst);
    r := matches;
  }

  datatype Stats = Stats(totalItems: nat, lostItems: nat, foundItems: nat, matchedItems: nat)

  predicate IsLost(x: Item) { x.itemType == "lost" }
  predicate IsFound(x: Item) { x.itemType == "found" }
  predicate IsMatched(x: Item) { x.status == "matched" }

  /** `get_stats`: counts over at most 1000 active rows. The lost and found
      counts never exceed the total, and the matched count is always zero,
      since only active rows are read. */
  function GetStats(db: Database): (s: Stats)
    reads db
    ensures s.totalItems <= 1000
    ensures s.lostItems + s.foundItems <= s.totalItems
    ensures s.matchedItems == 0
    ensures var rows := db.GetAllItems(None, "active", 1000);
            && s.totalItems == |rows| && s.lostItems == Count(rows, IsLost)
            && s.foundItems == Count(rows, IsFound) && s.matchedItems == Count(rows, IsMatched)
  {
    var items := db.GetAllItems(None, "active", 1000);
    CountDisjoint(items, IsLost, IsFound);
    CountNone(items, IsMatched);
    Stats(|items|, Count(items, IsLost), Count(items, IsFound), Count(items, IsMatched))
  }
}
