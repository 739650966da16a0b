/**
 * The per-row rules behind the feature columns: what `check_is_dog`,
 * `check_has_name`, `get_sex`, `get_neutered` and `get_hair_type` decide
 * for one value, stated as priority classifiers over the value's text.
 */
module Classifiers {
  import opened Wrappers
  import opened PyStr

  /** A lower-cased animal type that is one of the two expected ones. */
  predicate IsCatOrDog(v: string) {
    Lower(v) == "dog" || Lower(v) == "cat"
  }

  /** What `check_is_dog` gives back, and the rows it reports as anomalies. */
  datatype DogCheck = DogCheck(isDog: seq<bool>, anomalies: seq<nat>)

  /** The rows from `i` on whose animal type is neither dog nor cat, in order. */
  function AnomalousRows(animalType: seq<string>, i: nat): (rows: seq<nat>)
    requires i <= |animalType|
    ensures forall k :: 0 <= k < |rows| ==> i <= rows[k] < |animalType| && !IsCatOrDog(animalType[rows[k]])
    ensures forall k, l :: 0 <= k < l < |rows| ==> rows[k] < rows[l]
    ensures forall j :: i <= j < |animalType| && !IsCatOrDog(animalType[j]) ==> j in rows
    decreases |animalType| - i
  {
    if i == |animalType| then []
    else if IsCatOrDog(animalType[i]) then AnomalousRows(animalType, i + 1)
    else [i] + AnomalousRows(animalType, i + 1)
  }

  /**
   * `check_is_dog`: a row is a dog exactly when its lower-cased type is
   * "dog"; the rows reported are exactly those that are neither dog nor cat,
   * each once and in order, and none is reported when every row is one of
   * the two.
   */
  function CheckIsDog(animalType: seq<string>): (r: DogCheck)
    ensures |r.isDog| == |animalType|
    ensures forall i :: 0 <= i < |animalType| ==> (r.isDog[i] <==> Lower(animalType[i]) == "dog")
    ensures forall k :: 0 <= k < |r.anomalies| ==> r.anomalies[k] < |animalType| && !IsCatOrDog(animalType[r.anomalies[k]])
    ensures forall i :: 0 <= i < |animalType| && !IsCatOrDog(animalType[i]) ==> i in r.anomalies
    ensures forall k, l :: 0 <= k < l < |r.anomalies| ==> r.anomalies[k] < r.anomalies[l]
    ensures r.anomalies == [] <==> forall i :: 0 <= i < |animalType| ==> IsCatOrDog(animalType[i])
  {
    var anomalies := AnomalousRows(animalType, 0);
    assert anomalies != [] ==> !IsCatOrDog(animalType[anomalies[0]]);
    DogCheck(seq(|animalType|, i requires 0 <= i < |animalType| => Lower(animalType[i]) == "dog"), anomalies)
  }

  /** A dog is never reported as an anomaly. */
  lemma DogIsNoAnomaly(animalType: seq<string>, i: nat)
    requires i < |animalType| && CheckIsDog(animalType).isDog[i]
    ensures i !in CheckIsDog(animalType).anomalies
  {
    var r := CheckIsDog(animalType);
    assert IsCatOrDog(animalType[i]);
    forall k | 0 <= k < |r.anomalies|
      ensures r.anomalies[k] != i
    {
    }
  }

  /** `check_has_name`: a name counts unless it reads "unknown" in any case. */
  function CheckHasName(name: seq<string>): (r: seq<bool>)
    ensures |r| == |name|
    ensures forall i :: 0 <= i < |name| ==> (r[i] <==> Lower(name[i]) != "unknown")
  {
    seq(|name|, i requires 0 <= i < |name| => Lower(name[i]) != "unknown")
  }

  /** The three values `get_sex` produces. */
  const Sexes: seq<string> := ["female", "male", "unknown"]

  /** `"...Female"` never ends in the case-sensitive `"Male"`: its fourth-last letter is `m`. */
  lemma FemaleIsNotMale(v: string)
    ensures !(EndsWith(v, "Female") && EndsWith(v, "Male"))
  {
    if EndsWith(v, "Female") {
      OccursAtIsSlice(v, "Female", |v| - 6);
      OccursAtIsSlice(v, "Male", |v| - 4);
      assert v[|v| - 4] == "Female"[2];
    }
  }

  /**
   * The sex of one row, as the two masked overwrites of `get_sex` leave it:
   * the later "Male" pass wins over the earlier "Female" pass.
   */
  function SexOf(v: string): (r: string)
    ensures r in Sexes
    ensures r == "female" <==> EndsWith(v, "Female")
    ensures r == "male" <==> EndsWith(v, "Male")
  {
    FemaleIsNotMale(v);
    if EndsWith(v, "Male") then "male"
    else if EndsWith(v, "Female") then "female"
    else "unknown"
  }

  /** The three values `get_neutered` produces. */
  const NeuteredStates: seq<string> := ["fixed", "intact", "unknown"]

  /**
   * The neutered state of one row, by priority: "neutered" or "spayed"
   * anywhere in the lower-cased value means fixed, then "intact" means
   * intact; a value that already reads "fixed" keeps it; anything else is
   * unknown.
   */
  function NeuteredOf(v: string): (r: string)
    ensures r in NeuteredStates
    ensures Contains(Lower(v), "neutered") || Contains(Lower(v), "spayed") ==> r == "fixed"
    ensures r == "intact" <==>
      !Contains(Lower(v), "neutered") && !Contains(Lower(v), "spayed") && Contains(Lower(v), "intact")
    ensures r == "unknown" <==>
      !Contains(Lower(v), "neutered") && !Contains(Lower(v), "spayed") && !Contains(Lower(v), "intact")
      && Lower(v) != "fixed"
  {
    var l := Lower(v);
    if Contains(l, "neutered") || Contains(l, "spayed") then "fixed"
    else if Contains(l, "intact") then "intact"
    else if l == "fixed" then "fixed"
    else "unknown"
  }

  /** The hair-type keywords, in the order `get_hair_type` tries them. */
  const HairTypes: seq<string> := ["shorthair", "medium hair", "longhair"]

  /** The first keyword of `keys` that occurs in `l`, by position. */
  function FirstContained(l: string, keys: seq<string>): (r: Option<nat>)
    ensures r.None? <==> forall k :: 0 <= k < |keys| ==> !Contains(l, keys[k])
    ensures r.Some? ==> r.value < |keys| && Contains(l, keys[r.value])
    ensures r.Some? ==> forall k :: 0 <= k < r.value ==> !Contains(l, keys[k])
  {
    if keys == [] then None
    else if Contains(l, keys[0]) then Some(0)
    else match FirstContained(l, keys[1..])
      case None => None
      case Some(k) => Some(k + 1)
  }

  /** Looking one keyword further changes the answer only if none was found so far. */
  lemma FirstContainedSnoc(l: string, keys: seq<string>, key: string)
    ensures FirstContained(l, keys + [key]) ==
      if FirstContained(l, keys).Some? then FirstContained(l, keys)
      else if Contains(l, key) then Some(|keys|)
      else None
  {
    var r, s := FirstContained(l, keys), FirstContained(l, keys + [key]);
    assert forall k :: 0 <= k < |keys| ==> (keys + [key])[k] == keys[k];
    assert (keys + [key])[|keys|] == key;
    if r.Some? {
      assert s.Some? && s.value <= r.value;
    }
  }

  /**
   * The hair type of one row: the earliest keyword contained in the
   * lower-cased breed, or "unknown" when none is.
   */
  function HairTypeOf(breed: string): (r: string)
    ensures r in HairTypes || r == "unknown"
    ensures r == "unknown" <==> forall k :: 0 <= k < |HairTypes| ==> !Contains(Lower(breed), HairTypes[k])
    ensures forall k :: 0 <= k < |HairTypes| && r == HairTypes[k] ==>
      Contains(Lower(breed), HairTypes[k]) && forall j :: 0 <= j < k ==> !Contains(Lower(breed), HairTypes[j])
  {
    match FirstContained(Lower(breed), HairTypes)
    case Some(k) => HairTypes[k]
    case None => "unknown"
  }

  /** A keyword that is not a part of `s` because `s` lacks one of its characters. */
  lemma NotContainsMissingChar(s: string, sub: string, c: char)
    requires c in sub && c !in s
    ensures !Contains(s, sub)
  {
    var m :| 0 <= m < |sub| && sub[m] == c;
    forall j: int
      ensures !OccursAt(s, sub, j)
    {
      OccursAtIsSlice(s, sub, j);
      if 0 <= j && j + |sub| <= |s| {
        assert s[j..j + |sub|][m] != c;
      }
    }
    ContainsIff(s, sub);
  }

  /**
   * No hair-type label contains a later keyword, so once a row has been
   * labelled, the later passes of the loop leave it alone; each label
   * contains itself, so the final pass keeps it.
   */
  lemma HairTypesNotNested()
    ensures forall j, k :: 0 <= j < k < |HairTypes| ==> !Contains(HairTypes[j], HairTypes[k])
    ensures forall k :: 0 <= k < |HairTypes| ==> Contains(HairTypes[k], HairTypes[k])
  {
    NotContainsMissingChar("shorthair", "medium hair", 'm');
    NotContainsMissingChar("shorthair", "longhair", 'l');
    NotContainsMissingChar("medium hair", "longhair", 'l');
    ContainsSelf("shorthair");
    ContainsSelf("medium hair");
    ContainsSelf("longhair");
  }

  // The values of the shelter file the rules were written for.  Each fact
  // about a literal is its own lemma, so that every evaluation stays small.

  lemma SpayedFemaleLower() ensures Lower("Spayed Female") == "spayed female" {}
  lemma SpayedFemaleSuffix() ensures EndsWith("Spayed Female", "Female") {}
  lemma SpayedFemaleSpayed() ensures Contains("spayed female", "spayed") {
    ContainsAt("spayed female", "spayed", 0);
  }

  lemma SpayedFemale()
    ensures SexOf("Spayed Female") == "female" && NeuteredOf("Spayed Female") == "fixed"
  {
    SpayedFemaleLower();
    SpayedFemaleSuffix();
    SpayedFemaleSpayed();
  }

  lemma NeuteredMaleLower() ensures Lower("Neutered Male") == "neutered male" {}
  lemma NeuteredMaleSuffix() ensures EndsWith("Neutered Male", "Male") {}
  lemma NeuteredMaleNeutered() ensures Contains("neutered male", "neutered") {
    ContainsAt("neutered male", "neutered", 0);
  }

  lemma NeuteredMale()
    ensures SexOf("Neutered Male") == "male" && NeuteredOf("Neutered Male") == "fixed"
  {
    NeuteredMaleLower();
    NeuteredMaleSuffix();
    NeuteredMaleNeutered();
  }

  lemma IntactMaleLower() ensures Lower("Intact Male") == "intact male" {}
  lemma IntactMaleSuffix() ensures EndsWith("Intact Male", "Male") {}
  lemma IntactMaleNotNeutered() ensures !Contains("intact male", "neutered") {
    NotContainsMissingChar("intact male", "neutered", 'u');
  }
  lemma IntactMaleNotSpayed() ensures !Contains("intact male", "spayed") {
    NotContainsMissingChar("intact male", "spayed", 's');
  }
  lemma IntactMaleIntact() ensures Contains("intact male", "intact") {
    ContainsAt("intact male", "intact", 0);
  }

  lemma IntactMale()
    ensures SexOf("Intact Male") == "male" && NeuteredOf("Intact Male") == "intact"
  {
    IntactMaleLower();
    IntactMaleSuffix();
    IntactMaleNotNeutered();
    IntactMaleNotSpayed();
    IntactMaleIntact();
  }

  lemma ShorthairMixLower() ensures Lower("Domestic Shorthair Mix") == "domestic shorthair mix" {}
  lemma ShorthairMixShorthair() ensures Contains("domestic shorthair mix", "shorthair") {
    ContainsAt("domestic shorthair mix", "shorthair", 9);
  }

  lemma DomesticShorthairMix()
    ensures HairTypeOf("Domestic Shorthair Mix") == "shorthair"
  {
    ShorthairMixLower();
    ShorthairMixShorthair();
    assert Contains(Lower("Domestic Shorthair Mix"), HairTypes[0]);
  }

  lemma LonghairLower() ensures Lower("Domestic Longhair") == "domestic longhair" {}

  /** The only `s` of "domestic longhair" is followed by `t`, so "shorthair" cannot start anywhere. */
  lemma LonghairNotShorthair()
    ensures !Contains("domestic longhair", "shorthair")
  {
    var l := "domestic longhair";
    forall j
      ensures !OccursAt(l, "shorthair", j)
    {
      OccursAtIsSlice(l, "shorthair", j);
      if 0 <= j && j + 9 <= |l| {
        assert l[j..j + 9][0] == l[j] && l[j..j + 9][1] == l[j + 1];
        assert j == 0 || j == 1 || j == 2 || j == 3 || j == 4 || j == 5 || j == 6 || j == 7 || j == 8;
      }
    }
    ContainsIff(l, "shorthair");
  }

  lemma LonghairNotMedium() ensures !Contains("domestic longhair", "medium hair") {
    NotContainsMissingChar("domestic longhair", "medium hair", 'u');
  }
  lemma LonghairLonghair() ensures Contains("domestic longhair", "longhair") {
    ContainsAt("domestic longhair", "longhair", 9);
  }

  lemma DomesticLonghair()
    ensures HairTypeOf("Domestic Longhair") == "longhair"
  {
    LonghairLower();
    LonghairNotShorthair();
    LonghairNotMedium();
    LonghairLonghair();
    assert Contains(Lower("Domestic Longhair"), HairTypes[2]);
  }

  lemma BeagleMixLower() ensures Lower("Beagle Mix") == "beagle mix" {}
  lemma BeagleMixNotShorthair() ensures !Contains("beagle mix", "shorthair") {
    NotContainsMissingChar("beagle mix", "shorthair", 's');
  }
  lemma BeagleMixNotMedium() ensures !Contains("beagle mix", "medium hair") {
    NotContainsMissingChar("beagle mix", "medium hair", 'd');
  }
  lemma BeagleMixNotLonghair() ensures !Contains("beagle mix", "longhair") {
    NotContainsMissingChar("beagle mix", "longhair", 'o');
  }

  lemma BeagleMix()
    ensures HairTypeOf("Beagle Mix") == "unknown"
  {
    BeagleMixLower();
    BeagleMixNotShorthair();
    BeagleMixNotMedium();
    BeagleMixNotLonghair();
  }

  lemma BothHairsLower() ensures Lower("Shorthair Longhair") == "shorthair longhair" {}
  lemma BothHairsShorthair() ensures Contains("shorthair longhair", "shorthair") {
    ContainsAt("shorthair longhair", "shorthair", 0);
  }
  lemma BothHairsLonghair() ensures Contains("shorthair longhair", "longhair") {
    ContainsAt("shorthair longhair", "longhair", 10);
  }

  /** A breed naming two hair types gets the one listed first. */
  lemma ShorthairBeforeLonghair()
    ensures Contains(Lower("Shorthair Longhair"), "longhair")
    ensures HairTypeOf("Shorthair Longhair") == "shorthair"
  {
    BothHairsLower();
    BothHairsShorthair();
    BothHairsLonghair();
    assert Contains(Lower("Shorthair Longhair"), HairTypes[0]);
  }

  /** A bird is not a dog and is the one row reported. */
  lemma DogCatBird()
    ensures CheckIsDog(["Dog", "Cat", "Bird"]) == DogCheck([true, false, false], [2])
  {
    var t := ["Dog", "Cat", "Bird"];
    assert Lower(t[0]) == "dog" && Lower(t[1]) == "cat" && Lower(t[2]) == "bird";
    var r := CheckIsDog(t);
    assert r.isDog == [true, false, false];
    assert r.anomalies == [2];
  }
}
