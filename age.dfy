/**
 * `compute_days_upon_outcome`: each age such as "2 years" is split on white
 * space; a first token "Unknown" gives a missing value, otherwise the first
 * token is the magnitude and the second the unit, looked up in a table of
 * days per unit.  pandas applies each step to the whole column, so a row
 * that cannot be handled makes the whole call fail.
 */
module Age {
  import opened Wrappers
  import opened PyStr

  /** The two exceptions the column computation can raise. */
  datatype AgeError = IndexError | ValueError

  /** Days per unit; a unit missing from the table maps to a missing value. */
  const PeriodMapping: map<string, nat> :=
    map["year" := 365, "years" := 365, "weeks" := 7, "week" := 7,
        "month" := 30, "months" := 30, "days" := 1, "day" := 1]

  /** A magnitude the model reads as a number: one or more ASCII digits. */
  predicate IsDigits(t: string) {
    |t| > 0 && forall i :: 0 <= i < |t| ==> IsDigit(t[i])
  }

  /** The decimal value of a digit string. */
  function DigitsValue(t: string): nat
    requires forall i :: 0 <= i < |t| ==> IsDigit(t[i])
    decreases |t|
  {
    if t == [] then 0
    else
      assert IsDigit(t[|t| - 1]);
      DigitsValue(t[..|t| - 1]) * 10 + (t[|t| - 1] as int - '0' as int)
  }

  /**
   * A row that makes the column fail with `IndexError`: no token at all (the
   * first token is read), or a first token other than "Unknown" with no
   * second token (the unit is read).
   */
  predicate IndexErrorAt(v: string) {
    var t := Split(v);
    |t| == 0 || (t[0] != "Unknown" && |t| < 2)
  }

  /** A row whose magnitude cannot be turned into a number: `ValueError`. */
  predicate ValueErrorAt(v: string) {
    var t := Split(v);
    |t| > 0 && t[0] != "Unknown" && !IsDigits(t[0])
  }

  /** The age of one row in days, when the row raises nothing. */
  function RowDays(v: string): (d: Option<int>)
    requires !IndexErrorAt(v) && !ValueErrorAt(v)
  {
    var t := Split(v);
    if t[0] == "Unknown" then None
    else if t[1] in PeriodMapping then Some(DigitsValue(t[0]) * PeriodMapping[t[1]])
    else None
  }

  /** The first row from `i` on that satisfies `p`. */
  function FirstRow(col: seq<string>, p: string -> bool, i: nat): (r: Option<nat>)
    requires i <= |col|
    ensures r.None? <==> forall j :: i <= j < |col| ==> !p(col[j])
    ensures r.Some? ==> i <= r.value < |col| && p(col[r.value])
    ensures r.Some? ==> forall j :: i <= j < r.value ==> !p(col[j])
    decreases |col| - i
  {
    if i == |col| then None
    else if p(col[i]) then Some(i)
    else FirstRow(col, p, i + 1)
  }

  /**
   * `compute_days_upon_outcome` on a whole column: `IndexError` when any row
   * raises it, otherwise `ValueError` when any row raises that, otherwise
   * every row's age in days.
   */
  function DaysUponOutcome(col: seq<string>): (r: Result<seq<Option<int>>, AgeError>)
    ensures r == Failure(IndexError) <==> exists i :: 0 <= i < |col| && IndexErrorAt(col[i])
    ensures r == Failure(ValueError) <==>
      (forall i :: 0 <= i < |col| ==> !IndexErrorAt(col[i])) && exists i :: 0 <= i < |col| && ValueErrorAt(col[i])
    ensures r.Success? ==> |r.value| == |col|
    ensures r.Success? ==> forall i :: 0 <= i < |col| ==>
      !IndexErrorAt(col[i]) && !ValueErrorAt(col[i]) && r.value[i] == RowDays(col[i])
  {
    if FirstRow(col, IndexErrorAt, 0).Some? then Failure(IndexError)
    else if FirstRow(col, ValueErrorAt, 0).Some? then Failure(ValueError)
    else Success(seq(|col|, i requires 0 <= i < |col| => RowDays(col[i])))
  }

  /** A first token "Unknown" always gives a missing age, whatever follows it. */
  lemma UnknownIsMissing(v: string)
    requires Split(v) != [] && Split(v)[0] == "Unknown"
    ensures !IndexErrorAt(v) && !ValueErrorAt(v) && RowDays(v) == None
  {
  }

  /**
   * A magnitude and a known unit give the magnitude times the unit's days;
   * an unknown unit gives a missing age.
   */
  lemma MagnitudeTimesUnit(v: string)
    requires |Split(v)| >= 2 && IsDigits(Split(v)[0])
    ensures !IndexErrorAt(v) && !ValueErrorAt(v)
    ensures Split(v)[1] in PeriodMapping ==>
      RowDays(v) == Some(DigitsValue(Split(v)[0]) * PeriodMapping[Split(v)[1]])
    ensures Split(v)[1] !in PeriodMapping ==> RowDays(v) == None
  {
    assert Split(v)[0] != "Unknown" by {
      assert IsDigit(Split(v)[0][0]);
    }
  }

  /** `str.split()` reads a run of non-space characters as one token. */
  lemma {:induction false} SplitFromWord(s: string, i: nat, j: nat, token: string)
    requires i <= j <= |s| && NoSpace(s[i..j])
    ensures SplitFrom(s, i, token) == SplitFrom(s, j, token + s[i..j])
    decreases j - i
  {
    if i < j {
      assert !IsSpace(s[i]) by { assert s[i..j][0] == s[i]; }
      assert s[i + 1..j] == s[i..j][1..];
      SplitFromWord(s, i + 1, j, token + [s[i]]);
      assert token + [s[i]] + s[i + 1..j] == token + s[i..j];
    } else {
      assert token + s[i..j] == token;
    }
  }

  /** A non-empty word with no white space splits into itself. */
  lemma SplitOneWord(a: string)
    requires a != [] && NoSpace(a)
    ensures Split(a) == [a]
  {
    assert a[0..|a|] == a && [] + a == a;
    SplitFromWord(a, 0, |a|, []);
  }

  /** Two words separated by one space split into the two words. */
  lemma SplitTwoWords(a: string, b: string)
    requires a != [] && NoSpace(a) && b != [] && NoSpace(b)
    ensures Split(a + " " + b) == [a, b]
  {
    assert a + " " + b == a + [' '] + b;
    SplitAtSpace(a, ' ', b);
    SplitOneWord(a);
    SplitOneWord(b);
  }

  lemma TwoYears()
    ensures !IndexErrorAt("2 years") && !ValueErrorAt("2 years") && RowDays("2 years") == Some(730)
  {
    SplitTwoWords("2", "years");
    assert "2 years" == "2" + " " + "years";
    assert DigitsValue("2") == 2;
  }

  lemma ThreeWeeks()
    ensures !IndexErrorAt("3 weeks") && !ValueErrorAt("3 weeks") && RowDays("3 weeks") == Some(21)
  {
    SplitTwoWords("3", "weeks");
    assert "3 weeks" == "3" + " " + "weeks";
    assert DigitsValue("3") == 3;
  }

  lemma OneDay()
    ensures !IndexErrorAt("1 day") && !ValueErrorAt("1 day") && RowDays("1 day") == Some(1)
  {
    SplitTwoWords("1", "day");
    assert "1 day" == "1" + " " + "day";
    assert DigitsValue("1") == 1;
  }

  lemma UnknownAge()
    ensures !IndexErrorAt("Unknown") && !ValueErrorAt("Unknown") && RowDays("Unknown") == None
  {
    SplitOneWord("Unknown");
  }

  lemma FiveFortnights()
    ensures !IndexErrorAt("5 fortnights") && !ValueErrorAt("5 fortnights") && RowDays("5 fortnights") == None
  {
    SplitTwoWords("5", "fortnights");
    assert "5 fortnights" == "5" + " " + "fortnights";
  }

  /** The column of the examples: ages in days, a missing age, an unknown unit. */
  lemma AgeColumnExample()
    ensures DaysUponOutcome(["2 years", "3 weeks", "Unknown", "5 fortnights"]) ==
      Success([Some(730), Some(21), None, None])
  {
    TwoYears();
    ThreeWeeks();
    UnknownAge();
    FiveFortnights();
    var col := ["2 years", "3 weeks", "Unknown", "5 fortnights"];
    forall i | 0 <= i < |col|
      ensures !IndexErrorAt(col[i]) && !ValueErrorAt(col[i])
    {
      assert i == 0 || i == 1 || i == 2 || i == 3;
    }
    var r := DaysUponOutcome(col);
    assert r.Success?;
    assert r.value[0] == Some(730) && r.value[1] == Some(21) && r.value[2] == None && r.value[3] == None;
    assert r.value == [Some(730), Some(21), None, None];
  }

  /** A lone magnitude fails the whole column with `IndexError`, and so does an empty value. */
  lemma AgeIndexErrors()
    ensures DaysUponOutcome(["2 years", "2"]) == Failure(IndexError)
    ensures DaysUponOutcome([""]) == Failure(IndexError)
  {
    SplitOneWord("2");
    assert IndexErrorAt(["2 years", "2"][1]);
  }

  /** A magnitude that is not a number fails the whole column with `ValueError`. */
  lemma AgeValueError()
    ensures DaysUponOutcome(["two years"]) == Failure(ValueError)
  {
    SplitTwoWords("two", "years");
    assert "two years" == "two" + " " + "years";
    assert ValueErrorAt(["two years"][0]);
  }
}
