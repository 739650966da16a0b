/**
 * `add_features`: the loaded table is copied and six derived columns are
 * assigned to the copy one after the other, each computed from one source
 * column looked up on the copy.
 */
module Features {
  import opened Wrappers
  import opened PyStr
  import opened Frames
  import opened Classifiers
  import opened ColumnPasses
  import opened Age

  /** What can go wrong: a missing column, a column `.str` refuses, or a failing age column. */
  datatype FeatureError =
    | KeyError(column: string)
    | AttributeError(column: string)
    | AgeFailure(error: AgeError)

  /** The columns `add_features` reads, in the order it reads them. */
  const SourceColumns: seq<string> := ["animal_type", "name", "sex_upon_outcome", "breed", "age_upon_outcome"]

  /** The columns `add_features` assigns, in the order it assigns them. */
  const NewColumns: seq<string> := ["is_dog", "has_name", "sex", "neutered", "hair_type", "days_upon_outcome"]

  /**
   * `df[name]` followed by the `.str` accessor: a missing column is a
   * `KeyError`, a column that does not hold strings an `AttributeError`.
   */
  function TextColumn(df: Frame, name: string): (r: Result<seq<string>, FeatureError>)
    requires Valid(df)
    ensures r == Failure(KeyError(name)) <==> name !in df.names
    ensures r == Failure(AttributeError(name)) <==> name in df.names && !Lookup(df, name).value.Text?
    ensures r.Success? <==> name in df.names && Lookup(df, name).value.Text?
    ensures r.Success? ==> Lookup(df, name) == Some(Text(r.value)) && |r.value| == df.rows
  {
    match Lookup(df, name)
    case None => Failure(KeyError(name))
    case Some(col) => if col.Text? then Success(col.cells) else Failure(AttributeError(name))
  }

  /** The `days_upon_outcome` column, its failure wrapped as a feature error. */
  function DaysColumn(x: seq<string>): (r: Result<seq<Option<int>>, FeatureError>)
    ensures r.Success? <==> DaysUponOutcome(x).Success?
    ensures r.Success? ==> r.value == DaysUponOutcome(x).value
    ensures r.Failure? ==> r.error == AgeFailure(DaysUponOutcome(x).error)
  {
    match DaysUponOutcome(x)
    case Success(days) => Success(days)
    case Failure(e) => Failure(AgeFailure(e))
  }

  /** The contents of the six derived columns. */
  datatype Derived = Derived(
    isDog: seq<bool>,
    hasName: seq<bool>,
    sex: seq<string>,
    neutered: seq<string>,
    hairType: seq<string>,
    days: seq<Option<int>>)

  /** Every derived column is `rows` long. */
  predicate Fits(d: Derived, rows: nat) {
    && |d.isDog| == rows && |d.hasName| == rows && |d.sex| == rows
    && |d.neutered| == rows && |d.hairType| == rows && |d.days| == rows
  }

  /**
   * The derived columns computed from the source columns, read in the
   * order `add_features` reads them; the first source column that is
   * missing or does not hold strings, or a failing age column, is the error.
   */
  function DerivedColumns(df: Frame): (r: Result<Derived, FeatureError>)
    requires Valid(df)
    ensures r.Success? ==> Fits(r.value, df.rows)
  {
    var animalType :- TextColumn(df, "animal_type");
    var name :- TextColumn(df, "name");
    var sexUponOutcome :- TextColumn(df, "sex_upon_outcome");
    var breed :- TextColumn(df, "breed");
    var ageUponOutcome :- TextColumn(df, "age_upon_outcome");
    var days :- DaysColumn(ageUponOutcome);
    Success(Derived(
      CheckIsDog(animalType).isDog,
      CheckHasName(name),
      SexColumn(sexUponOutcome),
      NeuteredColumn(sexUponOutcome),
      HairTypeColumn(breed),
      days))
  }

  /** The six assignments `df['is_dog'] = ...` to `df['days_upon_outcome'] = ...`, in order. */
  function Assign(df: Frame, d: Derived): (r: Frame)
    requires Valid(df) && Fits(d, df.rows)
    ensures Valid(r) && r.rows == df.rows
    ensures |df.names| <= |r.names| && r.names[..|df.names|] == df.names
  {
    var d1 := SetColumn(df, "is_dog", Flags(d.isDog));
    var d2 := SetColumn(d1, "has_name", Flags(d.hasName));
    var d3 := SetColumn(d2, "sex", Text(d.sex));
    var d4 := SetColumn(d3, "neutered", Text(d.neutered));
    var d5 := SetColumn(d4, "hair_type", Text(d.hairType));
    var r := SetColumn(d5, "days_upon_outcome", Numbers(d.days));
    PrefixKept(df.names, df.names, d1.names, "is_dog");
    PrefixKept(df.names, d1.names, d2.names, "has_name");
    PrefixKept(df.names, d2.names, d3.names, "sex");
    PrefixKept(df.names, d3.names, d4.names, "neutered");
    PrefixKept(df.names, d4.names, d5.names, "hair_type");
    PrefixKept(df.names, d5.names, r.names, "days_upon_outcome");
    r
  }

  /** Keeping or appending to a sequence keeps its prefixes. */
  lemma PrefixKept(a: seq<string>, b: seq<string>, c: seq<string>, n: string)
    requires |a| <= |b| && b[..|a|] == a
    requires c == b || c == b + [n]
    ensures |a| <= |c| && c[..|a|] == a
  {
    assert c[..|b|] == b;
    assert c[..|a|] == c[..|b|][..|a|];
  }

  /** The table `add_features` returns, or the error it raises. */
  function Features(df: Frame): (r: Result<Frame, FeatureError>)
    requires Valid(df)
  {
    var d :- DerivedColumns(df);
    Success(Assign(df, d))
  }

  /** The last two assignments leave every other column alone. */
  lemma AfterLastTwo(d4: Frame, d: Derived, n: string)
    requires Valid(d4) && Fits(d, d4.rows) && n != "hair_type" && n != "days_upon_outcome"
    ensures
      var d5 := SetColumn(d4, "hair_type", Text(d.hairType));
      Lookup(SetColumn(d5, "days_upon_outcome", Numbers(d.days)), n) == Lookup(d4, n)
  {
    var d5 := SetColumn(d4, "hair_type", Text(d.hairType));
    SetColumnOthers(d4, "hair_type", Text(d.hairType), n);
    SetColumnOthers(d5, "days_upon_outcome", Numbers(d.days), n);
  }

  /** After the six assignments each derived column holds its contents. */
  lemma AssignNew(df: Frame, d: Derived)
    requires Valid(df) && Fits(d, df.rows)
    ensures Lookup(Assign(df, d), "is_dog") == Some(Flags(d.isDog))
    ensures Lookup(Assign(df, d), "has_name") == Some(Flags(d.hasName))
    ensures Lookup(Assign(df, d), "sex") == Some(Text(d.sex))
    ensures Lookup(Assign(df, d), "neutered") == Some(Text(d.neutered))
    ensures Lookup(Assign(df, d), "hair_type") == Some(Text(d.hairType))
    ensures Lookup(Assign(df, d), "days_upon_outcome") == Some(Numbers(d.days))
  {
    var d1 := SetColumn(df, "is_dog", Flags(d.isDog));
    var d2 := SetColumn(d1, "has_name", Flags(d.hasName));
    var d3 := SetColumn(d2, "sex", Text(d.sex));
    var d4 := SetColumn(d3, "neutered", Text(d.neutered));
    var d5 := SetColumn(d4, "hair_type", Text(d.hairType));
    SetColumnAssigned(df, "is_dog", Flags(d.isDog));
    SetColumnAssigned(d1, "has_name", Flags(d.hasName));
    SetColumnAssigned(d2, "sex", Text(d.sex));
    SetColumnAssigned(d3, "neutered", Text(d.neutered));
    SetColumnAssigned(d4, "hair_type", Text(d.hairType));
    SetColumnAssigned(d5, "days_upon_outcome", Numbers(d.days));
    SetColumnOthers(d1, "has_name", Flags(d.hasName), "is_dog");
    SetColumnOthers(d2, "sex", Text(d.sex), "is_dog");
    SetColumnOthers(d2, "sex", Text(d.sex), "has_name");
    SetColumnOthers(d3, "neutered", Text(d.neutered), "is_dog");
    SetColumnOthers(d3, "neutered", Text(d.neutered), "has_name");
    SetColumnOthers(d3, "neutered", Text(d.neutered), "sex");
    AfterLastTwo(d4, d, "is_dog");
    AfterLastTwo(d4, d, "has_name");
    AfterLastTwo(d4, d, "sex");
    AfterLastTwo(d4, d, "neutered");
    SetColumnOthers(d5, "days_upon_outcome", Numbers(d.days), "hair_type");
  }

  /** The six assignments leave every column they do not name as it was. */
  lemma AssignOthers(df: Frame, d: Derived, n: string)
    requires Valid(df) && Fits(d, df.rows) && n !in NewColumns
    ensures Lookup(Assign(df, d), n) == Lookup(df, n)
  {
    assert n != NewColumns[0] && n != NewColumns[1] && n != NewColumns[2];
    assert n != NewColumns[3] && n != NewColumns[4] && n != NewColumns[5];
    var d1 := SetColumn(df, "is_dog", Flags(d.isDog));
    var d2 := SetColumn(d1, "has_name", Flags(d.hasName));
    var d3 := SetColumn(d2, "sex", Text(d.sex));
    var d4 := SetColumn(d3, "neutered", Text(d.neutered));
    SetColumnOthers(df, "is_dog", Flags(d.isDog), n);
    SetColumnOthers(d1, "has_name", Flags(d.hasName), n);
    SetColumnOthers(d2, "sex", Text(d.sex), n);
    SetColumnOthers(d3, "neutered", Text(d.neutered), n);
    AfterLastTwo(d4, d, n);
  }

  /** No derived column overwrites a source column. */
  lemma NewColumnsAreNotSources()
    ensures forall k :: 0 <= k < |SourceColumns| ==> SourceColumns[k] !in NewColumns
  {
    forall k, j | 0 <= k < |SourceColumns| && 0 <= j < |NewColumns|
      ensures SourceColumns[k] != NewColumns[j]
    {
      assert |SourceColumns[k]| != |NewColumns[j]|;
    }
  }

  /** A source column reads the same after the six assignments. */
  lemma AssignKeepsSource(df: Frame, d: Derived, k: nat)
    requires Valid(df) && Fits(d, df.rows) && k < |SourceColumns|
    ensures TextColumn(Assign(df, d), SourceColumns[k]) == TextColumn(df, SourceColumns[k])
  {
    NewColumnsAreNotSources();
    AssignOthers(df, d, SourceColumns[k]);
  }

  /**
   * What `add_features` returns when it succeeds: the input table with the
   * same rows and its columns in place, the six derived columns present, each
   * holding its per-row rule applied to the source column of the input, and
   * every other column unchanged.
   */
  lemma FeaturesSuccess(df: Frame)
    requires Valid(df) && Features(df).Success?
    ensures var out := Features(df).value;
      && Valid(out) && out.rows == df.rows
      && |df.names| <= |out.names| && out.names[..|df.names|] == df.names
      && (forall n :: n !in NewColumns ==> Lookup(out, n) == Lookup(df, n))
    ensures var out := Features(df).value;
      var animalType := TextColumn(df, "animal_type");
      animalType.Success? && Lookup(out, "is_dog") == Some(Flags(CheckIsDog(animalType.value).isDog))
    ensures var out := Features(df).value;
      var name := TextColumn(df, "name");
      name.Success? && Lookup(out, "has_name") == Some(Flags(CheckHasName(name.value)))
    ensures var out := Features(df).value;
      var x := TextColumn(df, "sex_upon_outcome");
      && x.Success?
      && Lookup(out, "sex") == Some(Text(SexColumn(x.value)))
      && Lookup(out, "neutered") == Some(Text(NeuteredColumn(x.value)))
    ensures var out := Features(df).value;
      var breed := TextColumn(df, "breed");
      breed.Success? && Lookup(out, "hair_type") == Some(Text(HairTypeColumn(breed.value)))
    ensures var out := Features(df).value;
      var age := TextColumn(df, "age_upon_outcome");
      && age.Success? && DaysUponOutcome(age.value).Success?
      && Lookup(out, "days_upon_outcome") == Some(Numbers(DaysUponOutcome(age.value).value))
  {
    var d := DerivedColumns(df).value;
    var out := Assign(df, d);
    AssignNew(df, d);
    forall n | n !in NewColumns
      ensures Lookup(out, n) == Lookup(df, n)
    {
      AssignOthers(df, d, n);
    }
  }

  /** Which lookup fails decides what `add_features` raises. */
  lemma FeaturesSteps(df: Frame)
    requires Valid(df)
    ensures TextColumn(df, "animal_type").Failure? ==>
      Features(df) == Failure(TextColumn(df, "animal_type").error)
    ensures TextColumn(df, "animal_type").Success? && TextColumn(df, "name").Failure? ==>
      Features(df) == Failure(TextColumn(df, "name").error)
    ensures
      && TextColumn(df, "animal_type").Success? && TextColumn(df, "name").Success?
      && TextColumn(df, "sex_upon_outcome").Failure?
      ==> Features(df) == Failure(TextColumn(df, "sex_upon_outcome").error)
    ensures
      && TextColumn(df, "animal_type").Success? && TextColumn(df, "name").Success?
      && TextColumn(df, "sex_upon_outcome").Success? && TextColumn(df, "breed").Failure?
      ==> Features(df) == Failure(TextColumn(df, "breed").error)
    ensures
      && TextColumn(df, "animal_type").Success? && TextColumn(df, "name").Success?
      && TextColumn(df, "sex_upon_outcome").Success? && TextColumn(df, "breed").Success?
      && TextColumn(df, "age_upon_outcome").Failure?
      ==> Features(df) == Failure(TextColumn(df, "age_upon_outcome").error)
    ensures
      && TextColumn(df, "animal_type").Success? && TextColumn(df, "name").Success?
      && TextColumn(df, "sex_upon_outcome").Success? && TextColumn(df, "breed").Success?
      && TextColumn(df, "age_upon_outcome").Success?
      && DaysUponOutcome(TextColumn(df, "age_upon_outcome").value).Failure?
      ==> Features(df) == Failure(AgeFailure(DaysUponOutcome(TextColumn(df, "age_upon_outcome").value).error))
  {
  }

  /**
   * When every source column is read and the ages convert, `add_features`
   * returns the six assignments of the derived columns.
   */
  lemma FeaturesAssigned(df: Frame)
    requires Valid(df)
    requires
      && TextColumn(df, "animal_type").Success? && TextColumn(df, "name").Success?
      && TextColumn(df, "sex_upon_outcome").Success? && TextColumn(df, "breed").Success?
      && TextColumn(df, "age_upon_outcome").Success?
      && DaysUponOutcome(TextColumn(df, "age_upon_outcome").value).Success?
    ensures Features(df) == Success(Assign(df, Derived(
      CheckIsDog(TextColumn(df, "animal_type").value).isDog,
      CheckHasName(TextColumn(df, "name").value),
      SexColumn(TextColumn(df, "sex_upon_outcome").value),
      NeuteredColumn(TextColumn(df, "sex_upon_outcome").value),
      HairTypeColumn(TextColumn(df, "breed").value),
      DaysUponOutcome(TextColumn(df, "age_upon_outcome").value).value)))
  {
  }

  /** The source columns in read order, as literals. */
  lemma SourceColumnsAre()
    ensures SourceColumns[0] == "animal_type" && SourceColumns[1] == "name"
    ensures SourceColumns[2] == "sex_upon_outcome" && SourceColumns[3] == "breed"
    ensures SourceColumns[4] == "age_upon_outcome" && |SourceColumns| == 5
  {
  }

  /**
   * `add_features` raises exactly when one of the five source columns is
   * missing or does not hold strings, or the age column cannot be converted.
   */
  lemma FeaturesFailsIff(df: Frame)
    requires Valid(df)
    ensures Features(df).Failure? <==>
      || (exists k :: 0 <= k < |SourceColumns| && TextColumn(df, SourceColumns[k]).Failure?)
      || (TextColumn(df, "age_upon_outcome").Success?
          && DaysUponOutcome(TextColumn(df, "age_upon_outcome").value).Failure?)
  {
    FeaturesSteps(df);
    SourceColumnsAre();
    if TextColumn(df, "animal_type").Failure? {
      assert TextColumn(df, SourceColumns[0]).Failure?;
    } else if TextColumn(df, "name").Failure? {
      assert TextColumn(df, SourceColumns[1]).Failure?;
    } else if TextColumn(df, "sex_upon_outcome").Failure? {
      assert TextColumn(df, SourceColumns[2]).Failure?;
    } else if TextColumn(df, "breed").Failure? {
      assert TextColumn(df, SourceColumns[3]).Failure?;
    } else if TextColumn(df, "age_upon_outcome").Failure? {
      assert TextColumn(df, SourceColumns[4]).Failure?;
    } else {
      forall k | 0 <= k < |SourceColumns|
        ensures TextColumn(df, SourceColumns[k]).Success?
      {
        assert k == 0 || k == 1 || k == 2 || k == 3 || k == 4;
      }
    }
  }

  /**
   * A lookup error raised by `add_features` is the error of the first source
   * column, in read order, that is missing (`KeyError`) or does not hold
   * strings (`AttributeError`).
   */
  lemma FeaturesFirstError(df: Frame)
    requires Valid(df) && Features(df).Failure? && !Features(df).error.AgeFailure?
    ensures exists k ::
      && 0 <= k < |SourceColumns|
      && TextColumn(df, SourceColumns[k]) == Failure(Features(df).error)
      && (forall j :: 0 <= j < k ==> TextColumn(df, SourceColumns[j]).Success?)
  {
    FeaturesSteps(df);
    SourceColumnsAre();
    var k: nat :=
      if TextColumn(df, "animal_type").Failure? then 0
      else if TextColumn(df, "name").Failure? then 1
      else if TextColumn(df, "sex_upon_outcome").Failure? then 2
      else if TextColumn(df, "breed").Failure? then 3
      else 4;
    forall j | 0 <= j < k
      ensures TextColumn(df, SourceColumns[j]).Success?
    {
      assert j == 0 || j == 1 || j == 2 || j == 3;
    }
    assert TextColumn(df, SourceColumns[k]) == Failure(Features(df).error);
  }

  /**
   * An age error raised by `add_features` comes from an age column that is
   * there and holds strings, after all five source columns were found.
   */
  lemma FeaturesAgeError(df: Frame)
    requires Valid(df) && Features(df).Failure? && Features(df).error.AgeFailure?
    ensures forall k :: 0 <= k < |SourceColumns| ==> TextColumn(df, SourceColumns[k]).Success?
    ensures DaysUponOutcome(TextColumn(df, "age_upon_outcome").value) == Failure(Features(df).error.error)
  {
    FeaturesSteps(df);
    SourceColumnsAre();
    forall k | 0 <= k < |SourceColumns|
      ensures TextColumn(df, SourceColumns[k]).Success?
    {
      assert k == 0 || k == 1 || k == 2 || k == 3 || k == 4;
    }
  }

  /** The derived columns depend on the five source columns only. */
  lemma SameSourcesSameDerived(df: Frame, out: Frame)
    requires Valid(df) && Valid(out)
    requires TextColumn(out, "animal_type") == TextColumn(df, "animal_type")
    requires TextColumn(out, "name") == TextColumn(df, "name")
    requires TextColumn(out, "sex_upon_outcome") == TextColumn(df, "sex_upon_outcome")
    requires TextColumn(out, "breed") == TextColumn(df, "breed")
    requires TextColumn(out, "age_upon_outcome") == TextColumn(df, "age_upon_outcome")
    ensures DerivedColumns(out) == DerivedColumns(df)
  {
  }

  /** Assigning every derived column the value it already holds changes nothing. */
  lemma ReassignSame(out: Frame, d: Derived)
    requires Valid(out) && Fits(d, out.rows)
    requires Lookup(out, "is_dog") == Some(Flags(d.isDog))
    requires Lookup(out, "has_name") == Some(Flags(d.hasName))
    requires Lookup(out, "sex") == Some(Text(d.sex))
    requires Lookup(out, "neutered") == Some(Text(d.neutered))
    requires Lookup(out, "hair_type") == Some(Text(d.hairType))
    requires Lookup(out, "days_upon_outcome") == Some(Numbers(d.days))
    ensures Assign(out, d) == out
  {
    SetColumnUnchanged(out, "is_dog");
    SetColumnUnchanged(out, "has_name");
    SetColumnUnchanged(out, "sex");
    SetColumnUnchanged(out, "neutered");
    SetColumnUnchanged(out, "hair_type");
    SetColumnUnchanged(out, "days_upon_outcome");
  }

  /**
   * Running `add_features` on its own result gives the same table back: the
   * source columns are untouched, so every derived column is recomputed to
   * the value it already holds, and assigning an existing column its own
   * value changes nothing.
   */
  lemma FeaturesIdempotent(df: Frame)
    requires Valid(df) && Features(df).Success?
    ensures Features(Features(df).value) == Features(df)
  {
    var d := DerivedColumns(df).value;
    var out := Assign(df, d);
    SourceColumnsAre();
    AssignKeepsSource(df, d, 0);
    AssignKeepsSource(df, d, 1);
    AssignKeepsSource(df, d, 2);
    AssignKeepsSource(df, d, 3);
    AssignKeepsSource(df, d, 4);
    SameSourcesSameDerived(df, out);
    AssignNew(df, d);
    ReassignSame(out, d);
  }

  /** `out` holds the same five source columns as `df`. */
  predicate SameSources(df: Frame, out: Frame)
    requires Valid(df) && Valid(out)
  {
    && TextColumn(out, "animal_type") == TextColumn(df, "animal_type")
    && TextColumn(out, "name") == TextColumn(df, "name")
    && TextColumn(out, "sex_upon_outcome") == TextColumn(df, "sex_upon_outcome")
    && TextColumn(out, "breed") == TextColumn(df, "breed")
    && TextColumn(out, "age_upon_outcome") == TextColumn(df, "age_upon_outcome")
  }

  /** Assigning one of the derived columns keeps the source columns. */
  lemma AssignKeepsSources(df: Frame, out: Frame, j: nat, name: string, col: Column)
    requires Valid(df) && Valid(out) && Length(col) == out.rows
    requires SameSources(df, out) && j < |NewColumns| && name == NewColumns[j]
    ensures SameSources(df, SetColumn(out, name, col))
  {
    NewColumnsAreNotSources();
    SourceColumnsAre();
    SetColumnOthers(out, name, col, SourceColumns[0]);
    SetColumnOthers(out, name, col, SourceColumns[1]);
    SetColumnOthers(out, name, col, SourceColumns[2]);
    SetColumnOthers(out, name, col, SourceColumns[3]);
    SetColumnOthers(out, name, col, SourceColumns[4]);
  }

  /**
   * The loader fills every missing cell with "Unknown"; each rule reads that
   * placeholder as unknown: not a dog and not a cat (an anomaly), no name, no
   * sex, no neutered state, no hair type and a missing age.
   */
  lemma UnknownPlaceholder()
    ensures !IsCatOrDog("Unknown") && Lower("Unknown") != "dog"
    ensures Lower("Unknown") == "unknown"
    ensures SexOf("Unknown") == "unknown"
    ensures NeuteredOf("Unknown") == "unknown"
    ensures HairTypeOf("Unknown") == "unknown"
    ensures !IndexErrorAt("Unknown") && !ValueErrorAt("Unknown") && RowDays("Unknown") == None
  {
    assert Lower("Unknown") == "unknown";
    NotContainsMissingChar("Unknown", "Male", 'M');
    OccursAtIsSlice("Unknown", "Male", 3);
    OccursAtIsSlice("Unknown", "Female", 1);
    LongerNotContained("unknown", "neutered");
    NotContainsMissingChar("unknown", "spayed", 's');
    NotContainsMissingChar("unknown", "intact", 'i');
    LongerNotContained("unknown", "shorthair");
    LongerNotContained("unknown", "medium hair");
    LongerNotContained("unknown", "longhair");
    UnknownAge();
  }

  /** `out['is_dog'] = check_is_dog(out['animal_type'])` on the working copy. */
  method AssignIsDog(ghost df: Frame, out: Frame) returns (r: Result<Frame, FeatureError>)
    requires Valid(df) && Valid(out) && out.rows == df.rows && SameSources(df, out)
    ensures r.Failure? <==> TextColumn(df, "animal_type").Failure?
    ensures r.Failure? ==> r.error == TextColumn(df, "animal_type").error
    ensures r.Success? ==>
      && r.value == SetColumn(out, "is_dog", Flags(CheckIsDog(TextColumn(df, "animal_type").value).isDog))
      && Valid(r.value) && r.value.rows == df.rows && SameSources(df, r.value)
  {
    var animalType := TextColumn(out, "animal_type");
    if animalType.Failure? {
      return Failure(animalType.error);
    }
    var isDog := CheckIsDog(animalType.value).isDog;
    AssignKeepsSources(df, out, 0, "is_dog", Flags(isDog));
    r := Success(SetColumn(out, "is_dog", Flags(isDog)));
  }

  /** `out['has_name'] = check_has_name(out['name'])` on the working copy. */
  method AssignHasName(ghost df: Frame, out: Frame) returns (r: Result<Frame, FeatureError>)
    requires Valid(df) && Valid(out) && out.rows == df.rows && SameSources(df, out)
    ensures r.Failure? <==> TextColumn(df, "name").Failure?
    ensures r.Failure? ==> r.error == TextColumn(df, "name").error
    ensures r.Success? ==>
      && r.value == SetColumn(out, "has_name", Flags(CheckHasName(TextColumn(df, "name").value)))
      && Valid(r.value) && r.value.rows == df.rows && SameSources(df, r.value)
  {
    var name := TextColumn(out, "name");
    if name.Failure? {
      return Failure(name.error);
    }
    var hasName := CheckHasName(name.value);
    AssignKeepsSources(df, out, 1, "has_name", Flags(hasName));
    r := Success(SetColumn(out, "has_name", Flags(hasName)));
  }

  /** `out['sex'] = get_sex(out['sex_upon_outcome'])` on the working copy. */
  method AssignSex(ghost df: Frame, out: Frame) returns (r: Result<Frame, FeatureError>)
    requires Valid(df) && Valid(out) && out.rows == df.rows && SameSources(df, out)
    ensures r.Failure? <==> TextColumn(df, "sex_upon_outcome").Failure?
    ensures r.Failure? ==> r.error == TextColumn(df, "sex_upon_outcome").error
    ensures r.Success? ==>
      && r.value == SetColumn(out, "sex", Text(SexColumn(TextColumn(df, "sex_upon_outcome").value)))
      && Valid(r.value) && r.value.rows == df.rows && SameSources(df, r.value)
  {
    var sexUponOutcome := TextColumn(out, "sex_upon_outcome");
    if sexUponOutcome.Failure? {
      return Failure(sexUponOutcome.error);
    }
    var sex := GetSex(sexUponOutcome.value);
    AssignKeepsSources(df, out, 2, "sex", Text(sex));
    r := Success(SetColumn(out, "sex", Text(sex)));
  }

  /**
   * `out['neutered'] = get_neutered(out['sex_upon_outcome'])` on the working
   * copy; it runs only after `get_sex` has read the same column, so the
   * lookup cannot fail here.
   */
  method AssignNeutered(ghost df: Frame, out: Frame) returns (r: Frame)
    requires Valid(df) && Valid(out) && out.rows == df.rows && SameSources(df, out)
    requires TextColumn(df, "sex_upon_outcome").Success?
    ensures r == SetColumn(out, "neutered", Text(NeuteredColumn(TextColumn(df, "sex_upon_outcome").value)))
    ensures Valid(r) && r.rows == df.rows && SameSources(df, r)
  {
    var sexUponOutcome := TextColumn(out, "sex_upon_outcome").value;
    var neutered := GetNeutered(sexUponOutcome);
    AssignKeepsSources(df, out, 3, "neutered", Text(neutered));
    r := SetColumn(out, "neutered", Text(neutered));
  }

  /** `out['hair_type'] = get_hair_type(out['breed'])` on the working copy. */
  method AssignHairType(ghost df: Frame, out: Frame) returns (r: Result<Frame, FeatureError>)
    requires Valid(df) && Valid(out) && out.rows == df.rows && SameSources(df, out)
    ensures r.Failure? <==> TextColumn(df, "breed").Failure?
    ensures r.Failure? ==> r.error == TextColumn(df, "breed").error
    ensures r.Success? ==>
      && r.value == SetColumn(out, "hair_type", Text(HairTypeColumn(TextColumn(df, "breed").value)))
      && Valid(r.value) && r.value.rows == df.rows && SameSources(df, r.value)
  {
    var breed := TextColumn(out, "breed");
    if breed.Failure? {
      return Failure(breed.error);
    }
    var hairType := GetHairType(breed.value);
    AssignKeepsSources(df, out, 4, "hair_type", Text(hairType));
    r := Success(SetColumn(out, "hair_type", Text(hairType)));
  }

  /**
   * `out['days_upon_outcome'] = compute_days_upon_outcome(out['age_upon_outcome'])`
   * on the working copy.
   */
  method AssignDays(ghost df: Frame, out: Frame) returns (r: Result<Frame, FeatureError>)
    requires Valid(df) && Valid(out) && out.rows == df.rows && SameSources(df, out)
    ensures r.Failure? <==>
      TextColumn(df, "age_upon_outcome").Failure? || DaysColumn(TextColumn(df, "age_upon_outcome").value).Failure?
    ensures TextColumn(df, "age_upon_outcome").Failure? ==> r == Failure(TextColumn(df, "age_upon_outcome").error)
    ensures TextColumn(df, "age_upon_outcome").Success? ==>
      var days := DaysColumn(TextColumn(df, "age_upon_outcome").value);
      && (days.Failure? ==> r == Failure(days.error))
      && (days.Success? ==> r == Success(SetColumn(out, "days_upon_outcome", Numbers(days.value))))
  {
    var ageUponOutcome := TextColumn(out, "age_upon_outcome");
    if ageUponOutcome.Failure? {
      return Failure(ageUponOutcome.error);
    }
    var days := DaysColumn(ageUponOutcome.value);
    if days.Failure? {
      return Failure(days.error);
    }
    r := Success(SetColumn(out, "days_upon_outcome", Numbers(days.value)));
  }

  /**
   * `add_features` as the source runs it: a copy of the table, and six
   * column assignments, each reading its source column from the copy as it
   * stands; the first one that raises ends the call with its error.
   */
  method AddFeatures(df: Frame) returns (r: Result<Frame, FeatureError>)
    requires Valid(df)
    ensures r == Features(df)
  {
    var out := df;
    FeaturesSteps(df);
    out :- AssignIsDog(df, out);
    out :- AssignHasName(df, out);
    out :- AssignSex(df, out);
    out := AssignNeutered(df, out);
    out :- AssignHairType(df, out);
    out :- AssignDays(df, out);
    FeaturesAssigned(df);
    r := Success(out);
  }
}
