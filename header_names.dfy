/**
 * The header of the shelter-outcomes file followed through the renames of
 * `load_data`.  Each name is taken through its three stages (the `upon` fix,
 * the underscore insertion by position, lower-casing) one lemma at a time,
 * and long names are split into spans, so that every evaluation stays small.
 */
module HeaderNames {
  import opened PyStr
  import opened CamelCase
  import opened Loader

  /** The stages of `NormalizeName`, each given by its result. */
  lemma NormalizeSteps(name: string, fixed: string, snake: string, r: string)
    requires ReplaceFrom(name, "upon", "Upon", 0) == fixed
    requires SnakeSpan(fixed, 0, |fixed|) == snake
    requires Lower(snake) == r
    ensures NormalizeName(name) == r
  {
  }

  lemma AnimalIdFixed()
    ensures ReplaceFrom("AnimalID", "upon", "Upon", 0) == "AnimalID"
  {
    ReplaceAbsent("AnimalID", "upon", "Upon");
  }
  lemma AnimalIdHead() ensures SnakeSpan("AnimalID", 0, 4) == "Anim" {}
  lemma AnimalIdTail() ensures SnakeSpan("AnimalID", 4, 8) == "al_ID" {}
  lemma AnimalIdSnake()
    ensures SnakeSpan("AnimalID", 0, 8) == "Animal_ID"
  {
    SnakeSpanSplit("AnimalID", 0, 4, 8);
    AnimalIdHead(); AnimalIdTail();
  }
  lemma AnimalIdLower() ensures Lower("Animal_ID") == "animal_id" {}

  lemma NameFixed()
    ensures ReplaceFrom("Name", "upon", "Upon", 0) == "Name"
  {
    ReplaceAbsent("Name", "upon", "Upon");
  }
  lemma NameSnake() ensures SnakeSpan("Name", 0, 4) == "Name" {}
  lemma NameLower() ensures Lower("Name") == "name" {}

  lemma DateTimeFixed()
    ensures ReplaceFrom("DateTime", "upon", "Upon", 0) == "DateTime"
  {
    ReplaceAbsent("DateTime", "upon", "Upon");
  }
  lemma DateTimeHead() ensures SnakeSpan("DateTime", 0, 4) == "Date" {}
  lemma DateTimeTail() ensures SnakeSpan("DateTime", 4, 8) == "_Time" {}
  lemma DateTimeSnake()
    ensures SnakeSpan("DateTime", 0, 8) == "Date_Time"
  {
    SnakeSpanSplit("DateTime", 0, 4, 8);
    DateTimeHead(); DateTimeTail();
  }
  lemma DateTimeLower() ensures Lower("Date_Time") == "date_time" {}

  lemma AnimalTypeFixed()
    ensures ReplaceFrom("AnimalType", "upon", "Upon", 0) == "AnimalType"
  {
    ReplaceAbsent("AnimalType", "upon", "Upon");
  }
  lemma AnimalTypeHead() ensures SnakeSpan("AnimalType", 0, 5) == "Anima" {}
  lemma AnimalTypeTail() ensures SnakeSpan("AnimalType", 5, 10) == "l_Type" {}
  lemma AnimalTypeSnake()
    ensures SnakeSpan("AnimalType", 0, 10) == "Animal_Type"
  {
    SnakeSpanSplit("AnimalType", 0, 5, 10);
    AnimalTypeHead(); AnimalTypeTail();
  }
  lemma AnimalTypeLower() ensures Lower("Animal_Type") == "animal_type" {}

  lemma SexuponFixedTail()
    ensures ReplaceFrom("SexuponOutcome", "upon", "Upon", 7) == "Outcome"
  {
    ReplaceFromSkip("SexuponOutcome", "upon", "Upon", 7, 8);
    assert !OccursAt("SexuponOutcome", "upon", 8);
    ReplaceFromSkip("SexuponOutcome", "upon", "Upon", 9, 14);
  }
  lemma SexuponFixed()
    ensures ReplaceFrom("SexuponOutcome", "upon", "Upon", 0) == "SexUponOutcome"
  {
    ReplaceFromSkip("SexuponOutcome", "upon", "Upon", 0, 3);
    assert OccursAt("SexuponOutcome", "upon", 3);
    SexuponFixedTail();
  }
  lemma SexUponHead() ensures SnakeSpan("SexUponOutcome", 0, 4) == "Sex_U" {}
  lemma SexUponMiddle() ensures SnakeSpan("SexUponOutcome", 4, 9) == "pon_Ou" {}
  lemma SexUponTail() ensures SnakeSpan("SexUponOutcome", 9, 14) == "tcome" {}
  lemma SexUponSnake()
    ensures SnakeSpan("SexUponOutcome", 0, 14) == "Sex_Upon_Outcome"
  {
    SnakeSpanSplit("SexUponOutcome", 0, 4, 14);
    SnakeSpanSplit("SexUponOutcome", 4, 9, 14);
    SexUponHead(); SexUponMiddle(); SexUponTail();
  }
  lemma SexUponLower() ensures Lower("Sex_Upon_Outcome") == "sex_upon_outcome" {}

  lemma AgeuponFixedTail()
    ensures ReplaceFrom("AgeuponOutcome", "upon", "Upon", 7) == "Outcome"
  {
    ReplaceFromSkip("AgeuponOutcome", "upon", "Upon", 7, 8);
    assert !OccursAt("AgeuponOutcome", "upon", 8);
    ReplaceFromSkip("AgeuponOutcome", "upon", "Upon", 9, 14);
  }
  lemma AgeuponFixed()
    ensures ReplaceFrom("AgeuponOutcome", "upon", "Upon", 0) == "AgeUponOutcome"
  {
    ReplaceFromSkip("AgeuponOutcome", "upon", "Upon", 0, 3);
    assert OccursAt("AgeuponOutcome", "upon", 3);
    AgeuponFixedTail();
  }
  lemma AgeUponHead() ensures SnakeSpan("AgeUponOutcome", 0, 4) == "Age_U" {}
  lemma AgeUponMiddle() ensures SnakeSpan("AgeUponOutcome", 4, 9) == "pon_Ou" {}
  lemma AgeUponTail() ensures SnakeSpan("AgeUponOutcome", 9, 14) == "tcome" {}
  lemma AgeUponSnake()
    ensures SnakeSpan("AgeUponOutcome", 0, 14) == "Age_Upon_Outcome"
  {
    SnakeSpanSplit("AgeUponOutcome", 0, 4, 14);
    SnakeSpanSplit("AgeUponOutcome", 4, 9, 14);
    AgeUponHead(); AgeUponMiddle(); AgeUponTail();
  }
  lemma AgeUponLower() ensures Lower("Age_Upon_Outcome") == "age_upon_outcome" {}

  lemma BreedFixed()
    ensures ReplaceFrom("Breed", "upon", "Upon", 0) == "Breed"
  {
    ReplaceAbsent("Breed", "upon", "Upon");
  }
  lemma BreedSnake() ensures SnakeSpan("Breed", 0, 5) == "Breed" {}
  lemma BreedLower() ensures Lower("Breed") == "breed" {}

  /**
   * Seven headers of the shelter file come out snake_case, five of them
   * under the names `add_features` looks up.
   */
  lemma ShelterHeader()
    ensures NormalizeName("AnimalID") == "animal_id"
    ensures NormalizeName("Name") == "name"
    ensures NormalizeName("DateTime") == "date_time"
    ensures NormalizeName("AnimalType") == "animal_type"
    ensures NormalizeName("SexuponOutcome") == "sex_upon_outcome"
    ensures NormalizeName("AgeuponOutcome") == "age_upon_outcome"
    ensures NormalizeName("Breed") == "breed"
  {
    AnimalIdFixed(); AnimalIdSnake(); AnimalIdLower();
    NormalizeSteps("AnimalID", "AnimalID", "Animal_ID", "animal_id");
    NameFixed(); NameSnake(); NameLower();
    NormalizeSteps("Name", "Name", "Name", "name");
    DateTimeFixed(); DateTimeSnake(); DateTimeLower();
    NormalizeSteps("DateTime", "DateTime", "Date_Time", "date_time");
    AnimalTypeFixed(); AnimalTypeSnake(); AnimalTypeLower();
    NormalizeSteps("AnimalType", "AnimalType", "Animal_Type", "animal_type");
    SexuponFixed(); SexUponSnake(); SexUponLower();
    NormalizeSteps("SexuponOutcome", "SexUponOutcome", "Sex_Upon_Outcome", "sex_upon_outcome");
    AgeuponFixed(); AgeUponSnake(); AgeUponLower();
    NormalizeSteps("AgeuponOutcome", "AgeUponOutcome", "Age_Upon_Outcome", "age_upon_outcome");
    BreedFixed(); BreedSnake(); BreedLower();
    NormalizeSteps("Breed", "Breed", "Breed", "breed");
  }
}
