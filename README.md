# Shelter outcomes: loading and feature derivation

A Dafny model of `shelter/data.py`, the data module of a small project about
animal-shelter outcomes. The module does two things:

- `load_data` reads the outcomes table and normalises its column names. First
  `upon` becomes `Upon`, then CamelCase becomes snake_case. Every missing cell
  becomes the string "Unknown".
- `add_features` copies the table and adds six derived columns, one after the
  other. Each column is computed from one source column, read from the copy:
  - `is_dog` from `animal_type`; rows that are neither dog nor cat are reported
    as anomalies;
  - `has_name` from `name`;
  - `sex` and `neutered` from `sex_upon_outcome`;
  - `hair_type` from `breed`;
  - `days_upon_outcome` from `age_upon_outcome`.

The model has these modules:

- `Wrappers`: `Option` and `Result`.
- `PyStr`: the Python string operations the module uses. These are
  `str.lower`, `str.replace`, `str.endswith`, substring containment and
  `str.split()`.
- `CamelCase`: `convert_camel_case`. Its two regular-expression substitutions
  are modelled as left-to-right scans. A closed form (`SnakeSpan`) says where
  the underscores go.
- `Frames`: the table. It has named columns of equal length; `df[name]` is a
  lookup and `df[name] = col` an assignment.
- `Loader` and `HeaderNames`: `load_data` after the file has been read, and
  the shelter file's own headers followed through the renames.
- `Classifiers`: the per-row rule behind each derived column.
- `ColumnPasses`: `get_sex`, `get_neutered` and `get_hair_type` as the source
  writes them. Each is a series of masked overwrites of a working column
  (`column.loc[mask] = value`) and is modelled with an array. Each method is
  proved to give every row its classifier's value.
- `Age`: `compute_days_upon_outcome` on a whole column, including the
  exceptions it raises.
- `Features`: `add_features`. It has two parts:
  - a specification, `Features` (derived columns, then six assignments);
  - a method, `AddFeatures`, that performs the six assignments one by one on
    the copy.

  The lemmas about `Features` cover:
  - the success case;
  - which error is raised;
  - that columns it does not name are kept;
  - idempotence.

Three behaviours of the code differ from what a reader might expect. The
model follows the code:

- One might expect the neutered state to depend only on the keywords
  "neutered", "spayed" and "intact". The code also keeps a value whose
  lower-cased text is exactly "fixed" as "fixed", because that value survives
  the final `isin(['fixed', 'intact'])` filter (`Classifiers.NeuteredOf`).
- One might expect a malformed age to give a missing value. The code raises
  `IndexError` for a value with no token or a magnitude with no unit, and
  `ValueError` for a magnitude that is not a number. Either error ends the
  whole column computation. `Age.DaysUponOutcome` models both, and `Features`
  propagates them.
- One might expect the "Male" pass of `get_sex` to relabel values ending in
  "Female". It does not: the suffix test is case-sensitive, so a value ending
  in "Female" never ends in "Male" (`Classifiers.FemaleIsNotMale`), and the
  later pass never undoes the earlier one.

## Model

| member | source | states |
|---|---|---|
| PyStr.Lower | shelter/data.py:104 | `.str.lower()` keeps the length, leaves no upper-case letter and lowers each character on its own |
| PyStr.LowerConcat | shelter/data.py:49 | lower-casing distributes over concatenation |
| PyStr.ContainsIff | shelter/data.py:164-167 | `.str.contains(keyword)` holds exactly when the keyword occurs at some position of the value |
| PyStr.ContainsSelf | shelter/data.py:190-191 | every keyword is contained in itself, so a labelled row stays labelled |
| PyStr.OccursAtIsSlice | shelter/data.py:143-144 | an occurrence at `i` means the slice starting at `i` equals the keyword, the fact behind `str.endswith` |
| PyStr.ReplaceFromKeepsLower | shelter/data.py:27 | replacing `upon` by `Upon` keeps the length and changes only the case of letters |
| PyStr.ReplaceAbsent | shelter/data.py:27 | a name without the pattern's first letter is not changed by `str.replace` |
| PyStr.SplitSpec | shelter/data.py:212 | `str.split()` gives non-empty tokens without white space that concatenate to the non-space characters of the value |
| PyStr.SplitFromSuffix | shelter/data.py:212 | the split from a position depends only on the characters from there on |
| PyStr.SplitFromAtSpace | shelter/data.py:212 | a white-space character ends the token being read, whatever follows it |
| PyStr.SplitAtSpace | shelter/data.py:212 | `str.split()` breaks at white space: a white-space character splits a value into the tokens before it and the tokens after it |
| PyStr.ContainsAt | shelter/data.py:164-167 | an occurrence at some position means the value contains the keyword |
| CamelCase.WordPassInserts | shelter/data.py:48 | the first substitution only inserts underscores |
| CamelCase.CasePassInserts | shelter/data.py:49 | the second substitution only inserts underscores |
| CamelCase.WordPassIsSnake | shelter/data.py:48-49 | the first scan, followed by the second, puts underscores exactly where the closed form `SnakeSpan` puts them, even though the first scan skips overlapping matches |
| CamelCase.CasePassIsRef | shelter/data.py:49 | the second scan inserts an underscore before each upper-case letter that follows a lower-case letter or digit |
| CamelCase.ConvertCamelCase | shelter/data.py:48-49 | the result has no upper-case letter, is the lower-cased name with underscores inserted, and equals the lower-cased closed form |
| CamelCase.ConvertKeepsLowercase | shelter/data.py:48-49 | a name without upper-case letters is returned unchanged |
| CamelCase.ConvertIdempotent | shelter/data.py:35-49 | converting a converted name changes nothing |
| Loader.UponScan | shelter/data.py:27 | the scan of `str.replace` raises the `u` of every occurrence of `upon` and copies every other character; occurrences cannot overlap, so none is missed |
| Loader.NoUponLeft | shelter/data.py:27 | after every `upon` has had its `u` raised, no `upon` is left |
| Loader.FixUpon | shelter/data.py:27 | the `upon` fix keeps the length, turns exactly the `u` of each occurrence of `upon` into `U` and copies every other character, leaves no `upon`, and keeps the lower-cased name |
| Loader.NormalizeName | shelter/data.py:27-28 | a loaded column name is snake_case: no upper-case letter, the lower-cased original with underscores inserted |
| Loader.FillNa | shelter/data.py:29 | `fillna('Unknown')` keeps every present cell and turns every missing one into "Unknown" |
| Loader.LoadFrame | shelter/data.py:25-30 | the loaded table has the same rows and one text column per raw column, in order, under the normalised name, with no missing cell |
| Loader.LoadFrameValid | shelter/data.py:25-30 | when the normalised names are all different, the loaded table is a well-formed frame |
| HeaderNames.NormalizeSteps | shelter/data.py:27-28 | a name's normalisation is the composition of its three stages |
| HeaderNames.ShelterHeader | shelter/data.py:26-28 | the file's headers `AnimalID`, `Name`, `DateTime`, `AnimalType`, `SexuponOutcome`, `AgeuponOutcome` and `Breed` load as `animal_id`, `name`, `date_time`, `animal_type`, `sex_upon_outcome`, `age_upon_outcome` and `breed` |
| Frames.IndexOf | shelter/data.py:68 | the position found holds the name and is the first such position; no position is found exactly when the name is absent |
| Frames.Lookup | shelter/data.py:68 | `df[name]` fails exactly when the name is absent, and otherwise gives a column of the table's length |
| Frames.LookupAt | shelter/data.py:68 | with distinct names, the name at position `k` looks up the column at position `k` |
| Frames.SetColumn | shelter/data.py:68 | `df[name] = col` keeps the frame well-formed with the same rows; it keeps the names when the column exists and appends the name otherwise |
| Frames.SetColumnAssigned | shelter/data.py:68 | after `df[name] = col`, `df[name]` is `col` |
| Frames.SetColumnOthers | shelter/data.py:68 | after `df[name] = col`, every other column reads as before |
| Frames.SetColumnUnchanged | shelter/data.py:83-85 | assigning a column the value it already holds leaves the frame unchanged |
| Classifiers.AnomalousRows | shelter/data.py:104-107 | the rows reported are, in increasing order, exactly those whose type is neither dog nor cat |
| Classifiers.CheckIsDog | shelter/data.py:104-108 | `is_dog` holds exactly when the lower-cased type is "dog"; the anomalies are exactly the non-dog, non-cat rows, each once and in order, and there are none exactly when every row is a dog or a cat |
| Classifiers.DogIsNoAnomaly | shelter/data.py:104-108 | a dog is never reported as an anomaly |
| Classifiers.CheckHasName | shelter/data.py:125 | `has_name` holds exactly when the lower-cased name is not "unknown" |
| Classifiers.FemaleIsNotMale | shelter/data.py:143-144 | no value ends with both "Female" and "Male", so the second masked pass never overwrites the first |
| Classifiers.SexOf | shelter/data.py:142-144 | the sex is one of female, male or unknown; female exactly when the value ends with "Female", male exactly when it ends with "Male" |
| Classifiers.NeuteredOf | shelter/data.py:163-168 | the state is one of fixed, intact or unknown: fixed when "neutered" or "spayed" occurs; intact exactly when only "intact" occurs; unknown exactly when no keyword occurs and the value is not "fixed" |
| Classifiers.FirstContained | shelter/data.py:189-191 | the position found is that of the first keyword contained in the value; none is found exactly when no keyword is contained |
| Classifiers.FirstContainedSnoc | shelter/data.py:189-191 | trying one more keyword changes the answer only when no earlier keyword was found |
| Classifiers.HairTypeOf | shelter/data.py:186-193 | the hair type is the earliest listed keyword contained in the lower-cased breed, or "unknown" exactly when none is |
| Classifiers.NotContainsMissingChar | shelter/data.py:190 | a keyword with a character the value lacks is not contained in it |
| Classifiers.HairTypesNotNested | shelter/data.py:187-193 | no hair-type keyword contains a later one, and each contains itself |
| Classifiers.SpayedFemale | shelter/data.py:142-168 | "Spayed Female" is female and fixed |
| Classifiers.NeuteredMale | shelter/data.py:142-168 | "Neutered Male" is male and fixed |
| Classifiers.IntactMale | shelter/data.py:142-168 | "Intact Male" is male and intact |
| Classifiers.DomesticShorthairMix | shelter/data.py:186-193 | "Domestic Shorthair Mix" has short hair |
| Classifiers.DomesticLonghair | shelter/data.py:186-193 | "Domestic Longhair" has long hair |
| Classifiers.BeagleMix | shelter/data.py:186-193 | "Beagle Mix" has an unknown hair type |
| Classifiers.ShorthairBeforeLonghair | shelter/data.py:187-191 | a breed naming both short and long hair gets short hair, the keyword listed first |
| Classifiers.DogCatBird | shelter/data.py:104-108 | for "Dog", "Cat" and "Bird" only the first is a dog, and the bird's row is the one reported |
| ColumnPasses.MaskedAssign | shelter/data.py:143 | `a.loc[mask] = value` sets exactly the selected rows and keeps the others |
| ColumnPasses.GetSex | shelter/data.py:142-146 | the two masked passes give every row `SexOf` of its value |
| ColumnPasses.LongerNotContained | shelter/data.py:165-167 | a keyword longer than the value is not contained in it |
| ColumnPasses.NeuteredPasses | shelter/data.py:163-168 | the four passes of `get_neutered` applied to one value give `NeuteredOf` of that value |
| ColumnPasses.GetNeutered | shelter/data.py:163-170 | the four masked passes give every row `NeuteredOf` of its value |
| ColumnPasses.LabelledStep | shelter/data.py:189-191 | one iteration of the keyword loop turns the label after `k` keywords into the label after `k + 1` |
| ColumnPasses.LabelledFinal | shelter/data.py:193 | the final "unknown" pass turns the loop's label into the row's hair type |
| ColumnPasses.GetHairType | shelter/data.py:186-195 | the loop and the final pass give every row `HairTypeOf` of its breed |
| Age.FirstRow | shelter/data.py:213-217 | the first row at or after `i` that meets the condition, or none when no row does |
| Age.DaysUponOutcome | shelter/data.py:212-219 | the column fails with `IndexError` exactly when some row lacks a needed token; otherwise it fails with `ValueError` exactly when some magnitude is not a number; otherwise it gives each row's age in days |
| Age.UnknownIsMissing | shelter/data.py:213-214 | a first token "Unknown" gives a missing age, whatever follows |
| Age.MagnitudeTimesUnit | shelter/data.py:215-217 | a numeric magnitude with a known unit gives the magnitude times the unit's days; an unknown unit gives a missing age |
| Age.SplitFromWord | shelter/data.py:212 | a run of non-space characters becomes one token |
| Age.SplitOneWord | shelter/data.py:212 | a single word splits into itself |
| Age.SplitTwoWords | shelter/data.py:212 | two words separated by a space split into the two words |
| Age.TwoYears | shelter/data.py:215-217 | "2 years" is 730 days |
| Age.ThreeWeeks | shelter/data.py:215-217 | "3 weeks" is 21 days |
| Age.OneDay | shelter/data.py:215-217 | "1 day" is 1 day |
| Age.UnknownAge | shelter/data.py:213-214 | "Unknown" is a missing age |
| Age.FiveFortnights | shelter/data.py:215-217 | "5 fortnights" is a missing age, because the unit is not in the table |
| Age.AgeColumnExample | shelter/data.py:212-219 | a column of these four values gives 730, 21, missing, missing |
| Age.AgeIndexErrors | shelter/data.py:213-214 | a lone magnitude, and an empty value, make the whole column fail with `IndexError` |
| Age.AgeValueError | shelter/data.py:217 | a magnitude that is not a number makes the whole column fail with `ValueError` |
| Features.TextColumn | shelter/data.py:68 | `df[name].str` fails with `KeyError` exactly when the column is missing and with `AttributeError` exactly when it does not hold strings; otherwise it gives the column's cells |
| Features.DaysColumn | shelter/data.py:83-85 | the age column's result, with its error wrapped as a feature error |
| Features.DerivedColumns | shelter/data.py:68-85 | the computed derived columns all have the table's length |
| Features.Assign | shelter/data.py:68-85 | the six assignments keep the frame well-formed, keep its rows, and keep its existing columns at their positions |
| Features.PrefixKept | shelter/data.py:68-85 | keeping or appending a name keeps every prefix of the names |
| Features.AfterLastTwo | shelter/data.py:80-85 | the last two assignments leave every other column alone |
| Features.AssignNew | shelter/data.py:68-85 | after the six assignments, each derived column holds its contents |
| Features.AssignOthers | shelter/data.py:65-87 | columns the six assignments do not name read as in the input |
| Features.NewColumnsAreNotSources | shelter/data.py:68-85 | no derived column overwrites a source column |
| Features.AssignKeepsSource | shelter/data.py:68-85 | each source column reads the same after the six assignments |
| Features.FeaturesSuccess | shelter/data.py:65-87 | on success, the result has the input's rows and its columns in place, every other column unchanged, and each derived column equal to its rule applied to the input's source column |
| Features.FeaturesSteps | shelter/data.py:68-85 | the first failing lookup, in read order, or a failing age column, is what `add_features` raises |
| Features.FeaturesAssigned | shelter/data.py:65-87 | when every source column is read and the ages convert, `add_features` returns the input with the six derived columns assigned, each computed by its rule from its source column |
| Features.FeaturesFailsIff | shelter/data.py:65-87 | `add_features` raises exactly when some source column is missing or not text, or the age column cannot be converted |
| Features.FeaturesFirstError | shelter/data.py:68-84 | a lookup error raised is that of the first failing source column, in read order |
| Features.FeaturesAgeError | shelter/data.py:83-85 | an age error is raised only after all five source columns were read, and it is the age column's own error |
| Features.SameSourcesSameDerived | shelter/data.py:68-85 | the derived columns depend on the five source columns only |
| Features.ReassignSame | shelter/data.py:68-85 | assigning every derived column the value it already holds changes nothing |
| Features.FeaturesIdempotent | shelter/data.py:65-87 | running `add_features` on its own result gives the same table back |
| Features.AssignKeepsSources | shelter/data.py:68-85 | assigning one derived column keeps all five source columns |
| Features.UnknownPlaceholder | shelter/data.py:29 | the "Unknown" placeholder of the loader reads as unknown in every rule: not a dog or cat, no name, no sex, no neutered state, no hair type, no age |
| Features.AssignIsDog | shelter/data.py:68 | the `is_dog` step fails exactly when `animal_type` is unreadable, and otherwise assigns `is_dog` from the input's `animal_type` and keeps the source columns |
| Features.AssignHasName | shelter/data.py:71 | the `has_name` step fails exactly when `name` is unreadable, and otherwise assigns `has_name` from the input's `name` |
| Features.AssignSex | shelter/data.py:74 | the `sex` step fails exactly when `sex_upon_outcome` is unreadable, and otherwise assigns `sex` by the masked passes |
| Features.AssignNeutered | shelter/data.py:77 | the `neutered` step assigns the masked-pass result for the input's `sex_upon_outcome` |
| Features.AssignHairType | shelter/data.py:80 | the `hair_type` step fails exactly when `breed` is unreadable, and otherwise assigns `hair_type` by the keyword loop |
| Features.AssignDays | shelter/data.py:83-85 | the age step fails exactly when `age_upon_outcome` is unreadable or its conversion fails, with that error, and otherwise assigns `days_upon_outcome` |
| Features.AddFeatures | shelter/data.py:65-87 | the copy with its six assignments, each reading from the copy, returns exactly what the specification `Features` gives, including the error raised |

## Left out

- Reading the CSV file (`pd.read_csv`) and parsing `DateTime` as a date are not modelled. The model starts from the raw table, in which a missing cell is `None`.
- Logging is not modelled. `load_data` logs the path and row count. `check_is_dog` logs the anomalous rows, which the model returns as `anomalies` instead.
- Age.DaysUponOutcome: a magnitude counts as a number only if it is a string of ASCII digits, and ages are integers. Python's `float()` also accepts decimals, signs, exponents, underscores, "nan" and "inf", and the result is a float. The model raises `ValueError` for all of these.
- PyStr.Lower: lower-cases only the ASCII letters A to Z. Python's `str.lower` also folds other Unicode letters.
- Frames.Valid: requires column names to be distinct. A pandas frame may hold duplicate names, and `df[name]` then returns a sub-frame. That case is not modelled.
- Regular-expression semantics of `str.contains` are not modelled in general. They are exact for the literal keywords the module passes, which contain no metacharacters.
- The pandas dtype and index of a column are not modelled. A column is text, booleans or optional integers, and rows are positions. The `.str` accessor on a non-text column is modelled as `AttributeError`.
- `df.copy()` is implicit in the model, because frames are values. The input is never changed, which the copy is there to guarantee.
- Features.AssignNeutered: requires that `sex_upon_outcome` has already been read successfully. In the source, this step only runs after `get_sex` has read that same column from the same copy.
