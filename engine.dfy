/** The matching engine of backend/ai/engine.py: image-path handling, text
    normalisation, the component scores, their weighted fusion, rounding and
    `batch_match`.

    Everything the engine hands to foreign code (the file system, PIL and the
    vision network, the sentence encoder, scikit-learn's cosine similarity,
    the haversine formula, `exp`, ISO date parsing) is a field of `AIEngine`;
    the bounds the rest of the model relies on are the predicates below it. */
module Engine {
  import opened Wrappers
  import opened Strings
  import opened Lists
  import opened Schema

  datatype AIEngine = AIEngine(
    /** `os.path.abspath` of the backend directory. */
    backendDir: string,
    /** `os.path.normpath`. */
    normPath: string -> string,
    /** `os.path.exists`. */
    fileExists: string -> bool,
    /** Decoding the image and running the vision network; `None` when either raises. */
    vision: string -> Option<Vector>,
    /** Running the sentence encoder and dividing by the L2 norm; `None` when it raises. */
    encode: string -> Option<Vector>,
    /** scikit-learn's `cosine_similarity` of two vectors. */
    cosineSimilarity: (Vector, Vector) -> real,
    /** Great-circle distance in km of (lat1, lon1) and (lat2, lon2), in degrees. */
    haversineKm: (real, real, real, real) -> real,
    /** `np.exp`. */
    exp: real -> real,
    /** `abs((fromisoformat(a) - fromisoformat(b)).days)`. */
    dayGap: (string, string) -> nat)

  ghost predicate CosineBounded(e: AIEngine) {
    forall a, b :: -1.0 <= e.cosineSimilarity(a, b) <= 1.0
  }

  ghost predicate DistanceNonNegative(e: AIEngine) {
    forall lat1, lon1, lat2, lon2 :: e.haversineKm(lat1, lon1, lat2, lon2) >= 0.0
  }

  ghost predicate DecayBounded(e: AIEngine) {
    forall x :: x <= 0.0 ==> 0.0 < e.exp(x) <= 1.0
  }

  ghost predicate DecayMonotone(e: AIEngine) {
    forall x, y :: x <= y ==> e.exp(x) <= e.exp(y)
  }

  // ---------------------------------------------------------------------
  // Image paths (extract_image_features)
  // ---------------------------------------------------------------------

  /** `path.replace("\\", "/")`. */
  function ForwardSlashes(path: string): (r: string)
    ensures |r| == |path|
    ensures '\\' !in r
    ensures '\\' !in path ==> r == path
  {
    seq(|path|, i requires 0 <= i < |path| => if path[i] == '\\' then '/' else path[i])
  }

  /** `s.lstrip(c)` for a single character `c`. */
  function LStrip(s: string, c: char): (r: string)
    ensures |r| <= |s| && r == s[|s| - |r|..]
    ensures forall i :: 0 <= i < |s| - |r| ==> s[i] == c
    ensures r == [] || r[0] != c
  {
    if s != [] && s[0] == c then LStrip(s[1..], c) else s
  }

  /** The stored image path with forward slashes and no leading slash. */
  function RelativeImagePath(path: string): (p: string)
    ensures '\\' !in p
    ensures p == [] || p[0] != '/'
  {
    var f := ForwardSlashes(path);
    var p := LStrip(f, '/');
    assert forall i :: 0 <= i < |p| ==> p[i] == f[|f| - |p| + i];
    p
  }

  /** An absolute path without backslashes loses exactly its leading slash. */
  lemma RootedPath(rest: string)
    requires '\\' !in rest
    requires rest == [] || rest[0] != '/'
    ensures RelativeImagePath("/" + rest) == rest
  {
    var url := "/" + rest;
    assert url[1..] == rest;
  }

  /** `full_path`: a path under "storage/" is resolved against the backend
      directory, any other path is used as it is. */
  function ImageLocation(e: AIEngine, path: string): string {
    var p := RelativeImagePath(path);
    e.normPath(if StartsWith(p, "storage/") then e.backendDir + "/" + p else p)
  }

  /** `extract_image_features`. A missing path (`None`, on which `replace`
      raises), a file that does not exist and an AVIF file give no features. */
  function ExtractImageFeatures(e: AIEngine, path: Option<string>): (f: Option<Vector>)
    ensures path.None? ==> f.None?
    ensures path.Some? && EndsWith(Lower(ImageLocation(e, path.value)), ".avif") ==> f.None?
    ensures path.Some? && !e.fileExists(ImageLocation(e, path.value)) ==> f.None?
  {
    if path.None? then None
    else
      var full := ImageLocation(e, path.value);
      if !e.fileExists(full) then None
      else if EndsWith(Lower(full), ".avif") then None
      else e.vision(full)
  }

  // ---------------------------------------------------------------------
  // Text normalisation (extract_text_embedding)
  // ---------------------------------------------------------------------

  /** A word of `split()`: non-empty, without whitespace. */
  predicate IsToken(w: string) {
    |w| > 0 && forall i :: 0 <= i < |w| ==> !IsSpace(w[i])
  }

  /** The longest prefix of `s` without whitespace. */
  function Word(s: string): (w: string)
    ensures |w| <= |s| && w == s[..|w|]
    ensures forall i :: 0 <= i < |w| ==> !IsSpace(w[i])
    ensures |w| < |s| ==> IsSpace(s[|w|])
    ensures s != [] && !IsSpace(s[0]) ==> |w| > 0
  {
    if s == [] || IsSpace(s[0]) then [] else [s[0]] + Word(s[1..])
  }

  /** `s.split()`: the maximal runs of non-whitespace characters, in order. */
  function Split(s: string): seq<string>
    decreases |s|
  {
    if s == [] then []
    else if IsSpace(s[0]) then Split(s[1..])
    else
      var w := Word(s);
      [w] + Split(s[|w|..])
  }

  /** `" ".join(ws)`. */
  function JoinWords(ws: seq<string>): string {
    if ws == [] then ""
    else if |ws| == 1 then ws[0]
    else ws[0] + " " + JoinWords(ws[1..])
  }

  /** `" ".join(text.lower().split())`. */
  function NormaliseText(text: string): string {
    JoinWords(Split(Lower(text)))
  }

  /** The only whitespace is a single ' ' between two non-whitespace
      characters: nothing leading, nothing trailing, nothing doubled. */
  predicate IsNormalised(s: string) {
    forall i :: 0 <= i < |s| && IsSpace(s[i]) ==> s[i] == ' ' && 0 < i < |s| - 1 && !IsSpace(s[i + 1])
  }

  lemma {:induction false} SplitTokens(s: string)
    ensures forall k :: 0 <= k < |Split(s)| ==> IsToken(Split(s)[k])
    ensures IsLowered(s) ==> forall k :: 0 <= k < |Split(s)| ==> IsLowered(Split(s)[k])
    decreases |s|
  {
    if s == [] {
    } else if IsSpace(s[0]) {
      SplitTokens(s[1..]);
      assert IsLowered(s) ==> IsLowered(s[1..]) by {
        if IsLowered(s) {
          forall i | 0 <= i < |s[1..]| ensures LowerChar(s[1..][i]) == s[1..][i] {
            assert s[1..][i] == s[i + 1];
          }
        }
      }
    } else {
      var w := Word(s);
      var rest := s[|w|..];
      SplitTokens(rest);
      assert IsLowered(s) ==> IsLowered(rest) && IsLowered(w) by {
        if IsLowered(s) {
          forall i | 0 <= i < |rest| ensures LowerChar(rest[i]) == rest[i] {
            assert rest[i] == s[|w| + i];
          }
        }
      }
      assert Split(s) == [w] + Split(rest);
    }
  }

  lemma {:induction false} WordBeforeSpace(w: string, rest: string)
    requires forall i :: 0 <= i < |w| ==> !IsSpace(w[i])
    requires rest == [] || IsSpace(rest[0])
    ensures Word(w + rest) == w
  {
    if w == [] {
      assert w + rest == rest;
    } else {
      assert (w + rest)[1..] == w[1..] + rest;
      WordBeforeSpace(w[1..], rest);
    }
  }

  /** Splitting the single-space join of words gives the words back. */
  lemma {:induction false} SplitJoinWords(ws: seq<string>)
    requires forall k :: 0 <= k < |ws| ==> IsToken(ws[k])
    ensures Split(JoinWords(ws)) == ws
  {
    if ws == [] {
    } else if |ws| == 1 {
      var w := ws[0];
      assert w + [] == w;
      WordBeforeSpace(w, []);
      assert w[|w|..] == [];
      assert Split(w) == [w] + Split([]);
    } else {
      var w := ws[0];
      var tail := JoinWords(ws[1..]);
      var s := w + " " + tail;
      assert s == w + (" " + tail);
      WordBeforeSpace(w, " " + tail);
      assert s[|w|..] == " " + tail;
      assert (" " + tail)[1..] == tail;
      SplitJoinWords(ws[1..]);
      assert Split(s) == [w] + Split(" " + tail);
      assert ws == [w] + ws[1..];
    }
  }

  lemma {:induction false} JoinWordsShape(ws: seq<string>)
    requires forall k :: 0 <= k < |ws| ==> IsToken(ws[k])
    ensures IsNormalised(JoinWords(ws))
    ensures ws != [] ==> |JoinWords(ws)| > 0 && !IsSpace(JoinWords(ws)[0])
                         && !IsSpace(JoinWords(ws)[|JoinWords(ws)| - 1])
    ensures (forall k :: 0 <= k < |ws| ==> IsLowered(ws[k])) ==> IsLowered(JoinWords(ws))
  {
    if |ws| == 1 {
      assert IsToken(ws[0]);
    } else if |ws| > 1 {
      var w := ws[0];
      var tail := JoinWords(ws[1..]);
      JoinWordsShape(ws[1..]);
      assert IsToken(w);
      var s := w + " " + tail;
      forall i | 0 <= i < |s|
        ensures IsSpace(s[i]) ==> s[i] == ' ' && 0 < i < |s| - 1 && !IsSpace(s[i + 1])
      {
        if i < |w| {
          assert s[i] == w[i];
        } else if i == |w| {
          assert s[i + 1] == tail[0];
        } else {
          assert s[i] == tail[i - |w| - 1];
          if i + 1 < |s| {
            assert s[i + 1] == tail[i - |w|];
          }
        }
      }
      assert s[|s| - 1] == tail[|tail| - 1];
      if forall k :: 0 <= k < |ws| ==> IsLowered(ws[k]) {
        assert IsLowered(w);
        assert forall k :: 0 <= k < |ws[1..]| ==> IsLowered(ws[1..][k]) by {
          forall k | 0 <= k < |ws[1..]| ensures IsLowered(ws[1..][k]) {
            assert ws[1..][k] == ws[k + 1];
          }
        }
        forall i | 0 <= i < |s| ensures LowerChar(s[i]) == s[i] {
          if i < |w| {
            assert s[i] == w[i];
          } else if i > |w| {
            assert s[i] == tail[i - |w| - 1];
          }
        }
      }
    }
  }

  /** The normalised text is in lower case, has no leading, trailing or
      doubled whitespace, and splits into the same words as the lower-cased
      input. */
  lemma NormaliseTextShape(text: string)
    ensures IsNormalised(NormaliseText(text))
    ensures IsLowered(NormaliseText(text))
    ensures Split(NormaliseText(text)) == Split(Lower(text))
  {
    var ws := Split(Lower(text));
    LowerIsLowered(text);
    SplitTokens(Lower(text));
    JoinWordsShape(ws);
    SplitJoinWords(ws);
  }

  /** Normalising twice is normalising once. */
  lemma NormaliseTextIdempotent(text: string)
    ensures NormaliseText(NormaliseText(text)) == NormaliseText(text)
  {
    var n := NormaliseText(text);
    NormaliseTextShape(text);
    LoweredIsFixed(n);
    assert Split(Lower(n)) == Split(Lower(text));
  }

  /** `extract_text_embedding`: the encoder sees the normalised text. */
  function ExtractTextEmbedding(e: AIEngine, text: string): Option<Vector> {
    e.encode(NormaliseText(text))
  }

  /** Texts that differ only in case and spacing get the same embedding. */
  lemma SameWordsSameEmbedding(e: AIEngine, t1: string, t2: string)
    requires Split(Lower(t1)) == Split(Lower(t2))
    ensures ExtractTextEmbedding(e, t1) == ExtractTextEmbedding(e, t2)
  {
  }

  // ---------------------------------------------------------------------
  // Component scores
  // ---------------------------------------------------------------------

  /** The rescaling in `cosine`: (c + 1) / 2 maps [-1, 1] onto [0, 1], and
      2r - 1 undoes it. */
  function Rescale(c: real): (r: real)
    ensures -1.0 <= c <= 1.0 ==> 0.0 <= r <= 1.0
    ensures 2.0 * r - 1.0 == c
  {
    (c + 1.0) / 2.0
  }

  /** `cosine`. */
  function Cosine(e: AIEngine, a: Vector, b: Vector): (r: real)
    ensures CosineBounded(e) ==> 0.0 <= r <= 1.0
  {
    Rescale(e.cosineSimilarity(a, b))
  }

  /** `max_km`, the default that `match_items` never overrides. */
  const MaxKm: real := 10.0

  /** Python truthiness of an optional coordinate: `None` and `0.0` are false. */
  predicate Truthy(x: Option<real>) {
    x.Some? && x.value != 0.0
  }

  predicate HasCoordinates(lat1: Option<real>, lon1: Option<real>, lat2: Option<real>, lon2: Option<real>) {
    Truthy(lat1) && Truthy(lon1) && Truthy(lat2) && Truthy(lon2)
  }

  /** The distance part of `location_score`: zero beyond `MaxKm`, otherwise
      exp(-dist / (max_km / 3)). */
  function DistanceScore(e: AIEngine, dist: real): (r: real)
    ensures dist > MaxKm ==> r == 0.0
    ensures DecayBounded(e) && dist >= 0.0 ==> 0.0 <= r <= 1.0
  {
    if dist > MaxKm then 0.0 else e.exp(-dist / (MaxKm / 3.0))
  }

  /** A nearer pair never scores lower than a farther one. */
  lemma DistanceScoreDecreasing(e: AIEngine, d1: real, d2: real)
    requires DecayBounded(e) && DecayMonotone(e)
    requires 0.0 <= d1 <= d2
    ensures DistanceScore(e, d2) <= DistanceScore(e, d1)
  {
    if d2 <= MaxKm {
      assert -d2 / (MaxKm / 3.0) <= -d1 / (MaxKm / 3.0);
    }
  }

  /** `location_score`: 0.5 when any coordinate is missing or zero. */
  function LocationScore(e: AIEngine, lat1: Option<real>, lon1: Option<real>,
                         lat2: Option<real>, lon2: Option<real>): (r: real)
    ensures !HasCoordinates(lat1, lon1, lat2, lon2) ==> r == 0.5
    ensures (HasCoordinates(lat1, lon1, lat2, lon2)
             && e.haversineKm(lat1.value, lon1.value, lat2.value, lon2.value) > MaxKm) ==> r == 0.0
    ensures DistanceNonNegative(e) && DecayBounded(e) ==> 0.0 <= r <= 1.0
  {
    if !HasCoordinates(lat1, lon1, lat2, lon2) then 0.5
    else DistanceScore(e, e.haversineKm(lat1.value, lon1.value, lat2.value, lon2.value))
  }

  /** The temporal score of `match_items`: 0.7 unless both creation times are
      present, otherwise exp(-days / 30). */
  function TimeScore(e: AIEngine, created1: string, created2: string): (r: real)
    ensures created1 == "" || created2 == "" ==> r == 0.7
    ensures DecayBounded(e) ==> 0.0 <= r <= 1.0
  {
    if created1 != "" && created2 != "" then e.exp(-(e.dayGap(created1, created2) as real) / 30.0)
    else 0.7
  }

  /** The text the engine embeds for an item: title, a space, description. */
  function TextOf(item: Item): string {
    item.title + " " + item.description
  }

  /** The image score of `match_items`: the rescaled cosine when both
      images yield features, and 0.0 otherwise; the weight is not handed to
      the other components. */
  function ImageSimilarity(e: AIEngine, item1: Item, item2: Item): (r: real)
    ensures CosineBounded(e) ==> 0.0 <= r <= 1.0
    ensures ExtractImageFeatures(e, item1.imagePath).None? || ExtractImageFeatures(e, item2.imagePath).None?
            ==> r == 0.0
  {
    var f1 := ExtractImageFeatures(e, item1.imagePath);
    var f2 := ExtractImageFeatures(e, item2.imagePath);
    if f1.Some? && f2.Some? then Cosine(e, f1.value, f2.value) else 0.0
  }

  function TextSimilarity(e: AIEngine, item1: Item, item2: Item): (r: real)
    ensures CosineBounded(e) ==> 0.0 <= r <= 1.0
  {
    var e1 := ExtractTextEmbedding(e, TextOf(item1));
    var e2 := ExtractTextEmbedding(e, TextOf(item2));
    if e1.Some? && e2.Some? then Cosine(e, e1.value, e2.value) else 0.0
  }

  // ---------------------------------------------------------------------
  // Fusion
  // ---------------------------------------------------------------------

  datatype Components = Components(image: real, text: real, location: real, time: real)

  predicate InUnitRange(c: Components) {
    && 0.0 <= c.image <= 1.0 && 0.0 <= c.text <= 1.0
    && 0.0 <= c.location <= 1.0 && 0.0 <= c.time <= 1.0
  }

  /** The four component scores of a pair, each in [0, 1] when the foreign
      functions keep their bounds. */
  function Measure(e: AIEngine, item1: Item, item2: Item): (c: Components)
    ensures CosineBounded(e) && DistanceNonNegative(e) && DecayBounded(e) ==> InUnitRange(c)
  {
    Components(
      ImageSimilarity(e, item1, item2),
      TextSimilarity(e, item1, item2),
      LocationScore(e, item1.latitude, item1.longitude, item2.latitude, item2.longitude),
      TimeScore(e, item1.createdAt, item2.createdAt))
  }

  function CategoryBoost(sameCategory: bool): real {
    if sameCategory then 0.1 else -0.05
  }

  /** The weighted sum before clamping. */
  function RawConfidence(c: Components, sameCategory: bool): real {
    c.image * 0.4 + c.text * 0.35 + c.location * 0.15 + c.time * 0.1 + CategoryBoost(sameCategory)
  }

  /** `max(0.0, min(x, 0.95))`. */
  function Clamp(x: real): (r: real)
    ensures 0.0 <= r <= 0.95
    ensures 0.0 <= x <= 0.95 ==> r == x
  {
    var capped := if x < 0.95 then x else 0.95;
    if 0.0 < capped then capped else 0.0
  }

  /** The unrounded confidence of `match_items`, always within [0, 0.95]. */
  function Confidence(c: Components, sameCategory: bool): (r: real)
    ensures 0.0 <= r <= 0.95
  {
    Clamp(RawConfidence(c, sameCategory))
  }

  /** Confidence never drops when a component score rises. */
  lemma ConfidenceMonotone(c: Components, d: Components, sameCategory: bool)
    requires c.image <= d.image && c.text <= d.text
    requires c.location <= d.location && c.time <= d.time
    ensures Confidence(c, sameCategory) <= Confidence(d, sameCategory)
  {
  }

  /** Before clamping, a same-category pair scores exactly 0.15 more than a
      different-category pair with the same components. */
  lemma SameCategoryBonus(c: Components)
    ensures RawConfidence(c, true) == RawConfidence(c, false) + 0.15
    ensures Confidence(c, false) <= Confidence(c, true)
  {
  }

  /** With components in [0, 1] the raw sum lies in [-0.05, 1.1], so both
      ends of the clamp can be reached. */
  lemma RawConfidenceRange(c: Components, sameCategory: bool)
    requires InUnitRange(c)
    ensures -0.05 <= RawConfidence(c, sameCategory) <= 1.1
  {
  }

  /** The category term is a boost, not a ceiling: a pair of different
      categories can still reach the cap of 0.95. */
  lemma CrossCategoryReachesCap()
    ensures Confidence(Components(1.0, 1.0, 1.0, 1.0), false) == 0.95
  {
  }

  /** Without an image similarity (no redistribution of its weight), a pair
      of different categories stays at or below 0.55, under the agent's 0.6
      threshold, and a pair of the same category at or below 0.7. */
  lemma NoImageCeiling(c: Components)
    requires InUnitRange(c) && c.image == 0.0
    ensures Confidence(c, false) <= 0.55
    ensures Confidence(c, true) <= 0.7
  {
  }

  /** For a pair where either image yields no features, the ceiling holds
      for the pair's own scores: a pair of different categories never
      reaches a threshold above 0.55. */
  lemma NoImagePairCeiling(e: AIEngine, item1: Item, item2: Item, threshold: real)
    requires CosineBounded(e) && DistanceNonNegative(e) && DecayBounded(e)
    requires ExtractImageFeatures(e, item1.imagePath).None? || ExtractImageFeatures(e, item2.imagePath).None?
    ensures Confidence(Measure(e, item1, item2), false) <= 0.55
    ensures Confidence(Measure(e, item1, item2), true) <= 0.7
    ensures item1.category != item2.category && threshold > 0.55 ==> !MatchItems(e, item1, item2, threshold).isMatch
  {
    var c := Measure(e, item1, item2);
    assert c.image == 0.0;
    NoImageCeiling(c);
  }

  // ---------------------------------------------------------------------
  // Rounding
  // ---------------------------------------------------------------------

  /** `round(x, 3)` on the exact value of `x`: the nearest multiple of 0.001,
      a tie going to the even multiple. */
  function Round3(x: real): real {
    var scaled := x * 1000.0;
    var f := scaled.Floor;
    var frac := scaled - f as real;
    var n := if frac < 0.5 then f else if frac > 0.5 then f + 1 else if f % 2 == 0 then f else f + 1;
    n as real / 1000.0
  }

  lemma Round3Monotone(x: real, y: real)
    requires x <= y
    ensures Round3(x) <= Round3(y)
  {
    var fx, fy := (x * 1000.0).Floor, (y * 1000.0).Floor;
    assert fx <= fy;
    if fx == fy {
      assert x * 1000.0 - fx as real <= y * 1000.0 - fy as real;
    }
  }

  lemma Round3Close(x: real)
    ensures -0.0005 <= Round3(x) - x <= 0.0005
  {
  }

  /** A multiple of 0.001 rounds to itself. */
  lemma Round3Exact(k: int)
    ensures Round3(k as real / 1000.0) == k as real / 1000.0
  {
    assert (k as real / 1000.0) * 1000.0 == k as real;
  }

  // ---------------------------------------------------------------------
  // match_items and batch_match
  // ---------------------------------------------------------------------

  /** The dictionary `match_items` returns; the scores are rounded to three
      decimals, `isMatch` compares the unrounded confidence. */
  datatype MatchResult = MatchResult(
    isMatch: bool,
    confidenceScore: real,
    imageSimilarity: real,
    textSimilarity: real,
    locationScore: real,
    temporalScore: real)

  /** `match_items`. */
  function MatchItems(e: AIEngine, item1: Item, item2: Item, threshold: real): (r: MatchResult)
    ensures r.isMatch <==> Confidence(Measure(e, item1, item2), item1.category == item2.category) >= threshold
  {
    var c := Measure(e, item1, item2);
    var confidence := Confidence(c, item1.category == item2.category);
    MatchResult(confidence >= threshold, Round3(confidence), Round3(c.image),
                Round3(c.text), Round3(c.location), Round3(c.time))
  }

  /** The reported confidence lies in [0, 0.95], within 0.0005 of the
      unrounded one, and a match reports at least the rounded threshold. */
  lemma MatchScoreBounds(e: AIEngine, item1: Item, item2: Item, threshold: real)
    ensures var r := MatchItems(e, item1, item2, threshold);
            var confidence := Confidence(Measure(e, item1, item2), item1.category == item2.category);
            && 0.0 <= r.confidenceScore <= 0.95
            && -0.0005 <= r.confidenceScore - confidence <= 0.0005
            && (r.isMatch ==> r.confidenceScore >= Round3(threshold))
  {
    var confidence := Confidence(Measure(e, item1, item2), item1.category == item2.category);
    Round3Monotone(0.0, confidence);
    Round3Monotone(confidence, 0.95);
    Round3Exact(0);
    Round3Exact(950);
    Round3Close(confidence);
    if confidence >= threshold {
      Round3Monotone(threshold, confidence);
    }
  }

  /** An entry of `batch_match`'s result: the scores and the candidate. */
  datatype Scored = Scored(result: MatchResult, item: Item)

  /** The order of `sort(key=confidence_score, reverse=True)`. */
  predicate HigherConfidence(a: Scored, b: Scored) {
    a.result.confidenceScore >= b.result.confidenceScore
  }

  lemma HigherConfidenceIsPreorder()
    ensures TotalPreorder(HigherConfidence)
  {
  }

  /** `candidates`, or `candidate_items or []` when `candidates` is `None`. */
  function CandidatePool(candidates: Option<seq<Item>>, candidateItems: Option<seq<Item>>): seq<Item> {
    if candidates.Some? then candidates.value else candidateItems.GetOr([])
  }

  /** The candidates that match the query, in candidate order, each with its
      scores. */
  function Qualifying(e: AIEngine, query: Item, candidates: seq<Item>, threshold: real): seq<Scored> {
    if candidates == [] then []
    else Kept(e, query, candidates[0], threshold) + Qualifying(e, query, candidates[1..], threshold)
  }

  /** What one candidate contributes: `match_items` on the pair, and the
      entry appended when it reports a match. */
  function Kept(e: AIEngine, query: Item, candidate: Item, threshold: real): seq<Scored> {
    var m := MatchItems(e, query, candidate, threshold);
    if m.isMatch then [Scored(m, candidate)] else []
  }

  lemma QualifyingStep(e: AIEngine, query: Item, pool: seq<Item>, i: int, threshold: real)
    requires 0 <= i < |pool|
    ensures Qualifying(e, query, pool[i..], threshold)
            == Kept(e, query, pool[i], threshold) + Qualifying(e, query, pool[i + 1..], threshold)
  {
    assert pool[i..][1..] == pool[i + 1..];
  }

  /** `Qualifying` keeps exactly the candidates whose `is_match` holds. */
  lemma {:induction false} QualifyingMembers(e: AIEngine, query: Item, candidates: seq<Item>, threshold: real)
    ensures |Qualifying(e, query, candidates, threshold)| <= |candidates|
    ensures forall x :: x in Qualifying(e, query, candidates, threshold) ==>
              x.item in candidates && x.result.isMatch && x.result == MatchItems(e, query, x.item, threshold)
    ensures forall c :: c in candidates && MatchItems(e, query, c, threshold).isMatch ==>
              Scored(MatchItems(e, query, c, threshold), c) in Qualifying(e, query, candidates, threshold)
  {
    if candidates != [] {
      assert candidates == [candidates[0]] + candidates[1..];
      QualifyingMembers(e, query, candidates[1..], threshold);
    }
  }

  /** The loop step of `batch_match`: appending what candidate `i`
      contributes keeps the collected list a prefix of `Qualifying`. */
  lemma QualifyingGrows(e: AIEngine, query: Item, pool: seq<Item>, i: int, threshold: real, matches: seq<Scored>)
    requires 0 <= i < |pool|
    requires matches + Qualifying(e, query, pool[i..], threshold) == Qualifying(e, query, pool, threshold)
    ensures (matches + Kept(e, query, pool[i], threshold)) + Qualifying(e, query, pool[i + 1..], threshold)
            == Qualifying(e, query, pool, threshold)
  {
    QualifyingStep(e, query, pool, i, threshold);
    ConcatAssoc(matches, Kept(e, query, pool[i], threshold), Qualifying(e, query, pool[i + 1..], threshold));
  }

  /** The first `topK` of the matches sorted by confidence: matches only,
      each with its own candidate and scores, in order, and none ranked
      below a match that was left out. */
  lemma TopMatches(e: AIEngine, query: Item, pool: seq<Item>, threshold: real, topK: int)
    ensures var r := PyPrefix(SortBy(Qualifying(e, query, pool, threshold), HigherConfidence), topK);
            && (topK >= 0 ==> |r| <= topK)
            && Sorted(r, HigherConfidence)
            && (forall x :: x in r ==> x.item in pool && x.result.isMatch
                                       && x.result == MatchItems(e, query, x.item, threshold))
            && (forall x, y :: (x in r && y in Qualifying(e, query, pool, threshold) && y !in r)
                               ==> HigherConfidence(x, y))
  {
    QualifyingMembers(e, query, pool, threshold);
    HigherConfidenceIsPreorder();
    TopOfSorted(Qualifying(e, query, pool, threshold), topK, HigherConfidence);
  }

  /** `batch_match`: score every candidate, keep the matches, sort them by
      descending reported confidence (stably) and keep the first `topK`. */
  method BatchMatch(e: AIEngine, query: Item, candidates: Option<seq<Item>>,
                    candidateItems: Option<seq<Item>>, threshold: real, topK: int)
    returns (r: seq<Scored>)
    ensures var pool := CandidatePool(candidates, candidateItems);
            r == PyPrefix(SortBy(Qualifying(e, query, pool, threshold), HigherConfidence), topK)
    ensures topK >= 0 ==> |r| <= topK
    ensures Sorted(r, HigherConfidence)
    ensures forall x :: x in r ==> x.item in CandidatePool(candidates, candidateItems) && x.result.isMatch
                                   && x.result == MatchItems(e, query, x.item, threshold)
    ensures forall x, y :: (x in r && y in Qualifying(e, query, CandidatePool(candidates, candidateItems), threshold)
                            && y !in r) ==> HigherConfidence(x, y)
  {
    var pool := if candidates.Some? then candidates.value
                else if candidateItems.Some? then candidateItems.value else [];
    assert pool == CandidatePool(candidates, candidateItems);
    var matches := ScoreAll(e, query, pool, threshold);
    matches := SortBy(matches, HigherConfidence);
    r := PyPrefix(matches, topK);
    TopMatches(e, query, pool, threshold, topK);
  }

  /** The loop of `batch_match`: `match_items` on every candidate in turn,
      keeping the pairs it reports as matches, in candidate order. */
  method ScoreAll(e: AIEngine, query: Item, pool: seq<Item>, threshold: real) returns (matches: seq<Scored>)
    ensures matches == Qualifying(e, query, pool, threshold)
  {
    matches := [];
    var i := 0;
    ghost var all := Qualifying(e, query, pool, threshold);
    assert pool[0..] == pool;
    while i < |pool|
      invariant 0 <= i <= |pool|
      invariant matches + Qualifying(e, query, pool[i..], threshold) == all
    {
      QualifyingGrows(e, query, pool, i, threshold, matches);
      var result := MatchItems(e, query, pool[i], threshold);
      if result.isMatch {
        matches := matches + [Scored(result, pool[i])];
      } else {
        assert matches + [] == matches;
      }
      i := i + 1;
    }
    assert pool[i..] == [];
    assert matches + [] == matches;
  }
}
