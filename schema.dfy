/** The rows of the `items` and `matches` tables (backend/database.py). A
    column that SQL allows to be NULL is an `Option`; a feature column holds
    `Some(v)` when it holds the JSON text of the list `v`. */
module Schema {
  import opened Wrappers

  /** An image feature vector or a text embedding. */
  type Vector = seq<real>

  datatype Item = Item(
    itemId: string,
    userId: string,
    title: string,
    description: string,
    category: string,
    location: string,
    latitude: Option<real>,
    longitude: Option<real>,
    itemType: string,
    rewardAmount: real,
    contactInfo: string,
    imagePath: Option<string>,
    status: string,
    createdAt: string,
    updatedAt: string,
    imageFeatures: Option<Vector>,
    textEmbedding: Option<Vector>)

  datatype Match = Match(
    matchId: string,
    lostItemId: string,
    foundItemId: string,
    confidenceScore: real,
    imageSimilarity: real,
    textSimilarity: real,
    locationScore: real,
    status: string,
    createdAt: string,
    updatedAt: string)

  /** Python truthiness of a decoded feature list: present and non-empty. */
  predicate HasVector(v: Option<Vector>) {
    v.Some? && |v.value| > 0
  }

  /** Python truthiness of an optional string: present and non-empty. */
  predicate HasText(s: Option<string>) {
    s.Some? && |s.value| > 0
  }
}
