/** The validators of backend/models.py: case-insensitive membership in
    closed lists, and the length bounds of the `ItemCreate` request model. */
module Validation {
  import opened Strings

  const ValidCategories: seq<string> :=
    ["wallet", "phone", "keys", "bag", "jewelry", "documents", "electronics", "clothing", "accessories", "other"]

  const ValidItemTypes: seq<string> := ["lost", "found"]

  const ValidStatuses: seq<string> := ["active", "matched", "closed"]

  /** `validate_category`. */
  predicate ValidateCategory(category: string) {
    Lower(category) in ValidCategories
  }

  /** `validate_item_type`. */
  predicate ValidateItemType(itemType: string) {
    Lower(itemType) in ValidItemTypes
  }

  /** `validate_status`. */
  predicate ValidateStatus(status: string) {
    Lower(status) in ValidStatuses
  }

  /** Each validator is blind to case: a string and its lower-case form are
      accepted alike. */
  lemma ValidatorsIgnoreCase(s: string)
    ensures ValidateCategory(s) <==> ValidateCategory(Lower(s))
    ensures ValidateItemType(s) <==> ValidateItemType(Lower(s))
    ensures ValidateStatus(s) <==> ValidateStatus(Lower(s))
  {
    LowerIsLowered(s);
  }

  /** Spelled in lower case, exactly the listed words are accepted. */
  lemma LowerCaseAcceptance(s: string)
    requires IsLowered(s)
    ensures ValidateCategory(s) <==> s in ValidCategories
    ensures ValidateItemType(s) <==> s == "lost" || s == "found"
    ensures ValidateStatus(s) <==> s == "active" || s == "matched" || s == "closed"
  {
    LoweredIsFixed(s);
  }

  /** Every word of `words` begins with a lower-case ASCII letter. */
  predicate StartWithLetters(words: seq<string>) {
    words == [] || (|words[0]| > 0 && 'a' <= words[0][0] <= 'z' && StartWithLetters(words[1..]))
  }

  /** A word that begins with whitespace is none of `words`. */
  lemma {:induction false} NotListed(words: seq<string>, w: string)
    requires StartWithLetters(words)
    requires |w| > 0 && IsSpace(w[0])
    ensures w !in words
  {
    if words != [] {
      NotListed(words[1..], w);
      assert words == [words[0]] + words[1..];
    }
  }

  /** The listed words all begin with a letter. */
  lemma CategoriesStartWithLetters()
    ensures StartWithLetters(ValidCategories)
  {
    var c := ValidCategories;
    assert StartWithLetters(c[9..]);
    assert StartWithLetters(c[8..]);
    assert StartWithLetters(c[7..]);
    assert StartWithLetters(c[6..]);
    assert StartWithLetters(c[5..]);
    assert StartWithLetters(c[4..]);
    assert StartWithLetters(c[3..]);
    assert StartWithLetters(c[2..]);
    assert StartWithLetters(c[1..]);
  }

  lemma TypesAndStatusesStartWithLetters()
    ensures StartWithLetters(ValidItemTypes)
    ensures StartWithLetters(ValidStatuses)
  {
  }

  /** The validators do not strip: an input that begins with whitespace is
      rejected, since no listed word begins with whitespace and lowering
      keeps whitespace where it is. */
  lemma LeadingSpaceRejected(s: string)
    requires |s| > 0 && IsSpace(s[0])
    ensures !ValidateCategory(s) && !ValidateItemType(s) && !ValidateStatus(s)
  {
    LowerKeepsSpace(s[0]);
    var l := Lower(s);
    assert |l| > 0 && IsSpace(l[0]);
    CategoriesStartWithLetters();
    TypesAndStatusesStartWithLetters();
    NotListed(ValidCategories, l);
    NotListed(ValidItemTypes, l);
    NotListed(ValidStatuses, l);
  }

  /** No word of `words` holds whitespace anywhere. */
  predicate NoSpaceIn(words: seq<string>) {
    forall w, j :: w in words && 0 <= j < |w| ==> !IsSpace(w[j])
  }

  /** The validators do not strip or trim: an input with whitespace at any
      position, leading, trailing or inside, is rejected, since no listed
      word holds whitespace and lowering keeps whitespace where it is. */
  lemma SpaceAnywhereRejected(s: string, i: int)
    requires 0 <= i < |s| && IsSpace(s[i])
    ensures !ValidateCategory(s) && !ValidateItemType(s) && !ValidateStatus(s)
  {
    LowerKeepsSpace(s[i]);
    var l := Lower(s);
    assert IsSpace(l[i]);
    assert NoSpaceIn(ValidCategories);
    assert NoSpaceIn(ValidItemTypes);
    assert NoSpaceIn(ValidStatuses);
  }

  /** " lost", "lost " and "LOST": the first two are refused, the third
      accepted. */
  lemma ItemTypeExamples()
    ensures !ValidateItemType(" lost") && !ValidateItemType("lost ")
    ensures ValidateItemType("LOST") && ValidateItemType("Found")
  {
    LeadingSpaceRejected(" lost");
    SpaceAnywhereRejected("lost ", 4);
    assert Lower("LOST") == "lost";
    assert Lower("Found") == "found";
  }

  // ---------------------------------------------------------------------
  // ItemCreate
  // ---------------------------------------------------------------------

  /** The fields of `ItemCreate` that carry length bounds. */
  datatype Field = Title | Description | Location | ContactInfo

  /** `min_length` and `max_length` of each bounded field. */
  function Bounds(f: Field): (b: (nat, nat))
    ensures b.0 <= b.1
  {
    match f
    case Title => (3, 100)
    case Description => (10, 1000)
    case Location => (3, 200)
    case ContactInfo => (5, 100)
  }

  predicate WithinBounds(f: Field, value: string) {
    Bounds(f).0 <= |value| <= Bounds(f).1
  }

  /** The bounded fields of an `ItemCreate` request that fail validation, in
      declaration order; the request is valid when the list is empty. */
  function ItemCreateErrors(title: string, description: string, location: string, contactInfo: string)
    : (errs: seq<Field>)
    ensures errs == [] <==> (3 <= |title| <= 100 && 10 <= |description| <= 1000
                             && 3 <= |location| <= 200 && 5 <= |contactInfo| <= 100)
    ensures Title in errs <==> !(3 <= |title| <= 100)
    ensures Description in errs <==> !(10 <= |description| <= 1000)
    ensures Location in errs <==> !(3 <= |location| <= 200)
    ensures ContactInfo in errs <==> !(5 <= |contactInfo| <= 100)
  {
    (if WithinBounds(Title, title) then [] else [Title])
    + (if WithinBounds(Description, description) then [] else [Description])
    + (if WithinBounds(Location, location) then [] else [Location])
    + (if WithinBounds(ContactInfo, contactInfo) then [] else [ContactInfo])
  }
}
