/**
 * `get_sex`, `get_neutered` and `get_hair_type` as the source writes them:
 * a working column is built and then overwritten, pass after pass, through
 * masked assignments (`column.loc[mask] = value`).  Each method is proved to
 * leave every row with the value the per-row classifier gives.
 */
module ColumnPasses {
  import opened Wrappers
  import opened PyStr
  import opened Classifiers

  /** The `sex` column: one classification per row. */
  function SexColumn(x: seq<string>): (r: seq<string>)
    ensures |r| == |x| && forall i :: 0 <= i < |x| ==> r[i] == SexOf(x[i])
  {
    seq(|x|, i requires 0 <= i < |x| => SexOf(x[i]))
  }

  /** The `neutered` column: one classification per row. */
  function NeuteredColumn(x: seq<string>): (r: seq<string>)
    ensures |r| == |x| && forall i :: 0 <= i < |x| ==> r[i] == NeuteredOf(x[i])
  {
    seq(|x|, i requires 0 <= i < |x| => NeuteredOf(x[i]))
  }

  /** The `hair_type` column: one classification per row. */
  function HairTypeColumn(x: seq<string>): (r: seq<string>)
    ensures |r| == |x| && forall i :: 0 <= i < |x| ==> r[i] == HairTypeOf(x[i])
  {
    seq(|x|, i requires 0 <= i < |x| => HairTypeOf(x[i]))
  }

  /** `a.loc[mask] = value`: the rows the mask selects take `value`, the others keep theirs. */
  method MaskedAssign(a: array<string>, mask: seq<bool>, value: string)
    requires |mask| == a.Length
    modifies a
    ensures forall i :: 0 <= i < a.Length ==> a[i] == if mask[i] then value else old(a[i])
  {
    var i := 0;
    while i < a.Length
      invariant 0 <= i <= a.Length
      invariant forall j :: 0 <= j < i ==> a[j] == if mask[j] then value else old(a[j])
      invariant forall j :: i <= j < a.Length ==> a[j] == old(a[j])
    {
      if mask[i] {
        a[i] := value;
      }
      i := i + 1;
    }
  }

  /**
   * `get_sex`: a column of "unknown", then "female" where the value ends in
   * "Female", then "male" where it ends in "Male".
   */
  method GetSex(sexUponOutcome: seq<string>) returns (sex: seq<string>)
    ensures sex == SexColumn(sexUponOutcome)
  {
    var n := |sexUponOutcome|;
    var a := new string[n](_ => "unknown");
    MaskedAssign(a, seq(n, i requires 0 <= i < n => EndsWith(sexUponOutcome[i], "Female")), "female");
    MaskedAssign(a, seq(n, i requires 0 <= i < n => EndsWith(sexUponOutcome[i], "Male")), "male");
    sex := a[..];
    assert sex == SexColumn(sexUponOutcome);
  }

  /** A keyword longer than the text cannot occur in it. */
  lemma LongerNotContained(s: string, sub: string)
    requires |s| < |sub|
    ensures !Contains(s, sub)
  {
  }

  /**
   * The four passes of `get_neutered` on the lower-cased `v` give the
   * value's neutered state: once labelled "fixed" a value contains neither
   * "spayed" nor "intact", and a value containing "intact" is kept by the
   * last pass.
   */
  lemma NeuteredPasses(v: string, a1: string, a2: string, a3: string, a4: string)
    requires a1 == if Contains(Lower(v), "neutered") then "fixed" else Lower(v)
    requires a2 == if Contains(a1, "spayed") then "fixed" else a1
    requires a3 == if Contains(a2, "intact") then "intact" else a2
    requires a4 == if a3 !in ["fixed", "intact"] then "unknown" else a3
    ensures a4 == NeuteredOf(v)
  {
    LongerNotContained("fixed", "spayed");
    LongerNotContained("fixed", "intact");
    ContainsSelf("intact");
  }

  /**
   * `get_neutered`: the lower-cased column, then "fixed" where it contains
   * "neutered", then "fixed" where it contains "spayed", then "intact" where
   * it contains "intact", then "unknown" wherever the value is neither
   * "fixed" nor "intact".
   */
  method GetNeutered(sexUponOutcome: seq<string>) returns (neutered: seq<string>)
    ensures neutered == NeuteredColumn(sexUponOutcome)
  {
    var n := |sexUponOutcome|;
    var a := new string[n](i requires 0 <= i < n => Lower(sexUponOutcome[i]));
    var w0 := a[..];
    MaskedAssign(a, seq(n, i requires 0 <= i < n => Contains(w0[i], "neutered")), "fixed");
    var w1 := a[..];
    MaskedAssign(a, seq(n, i requires 0 <= i < n => Contains(w1[i], "spayed")), "fixed");
    var w2 := a[..];
    MaskedAssign(a, seq(n, i requires 0 <= i < n => Contains(w2[i], "intact")), "intact");
    var w3 := a[..];
    MaskedAssign(a, seq(n, i requires 0 <= i < n => w3[i] !in ["fixed", "intact"]), "unknown");
    neutered := a[..];
    forall i | 0 <= i < n
      ensures neutered[i] == NeuteredOf(sexUponOutcome[i])
    {
      NeuteredPasses(sexUponOutcome[i], w1[i], w2[i], w3[i], neutered[i]);
    }
    assert neutered == NeuteredColumn(sexUponOutcome);
  }

  /**
   * The working value of one row after the loop of `get_hair_type` has tried
   * the first `k` keywords: the earliest of them found in the lower-cased
   * breed, or the lower-cased breed itself.
   */
  function Labelled(l: string, k: nat): string
    requires k <= |HairTypes|
  {
    match FirstContained(l, HairTypes[..k])
    case Some(j) => HairTypes[j]
    case None => l
  }

  /** One pass of the loop turns the label after `k` keywords into the label after `k + 1`. */
  lemma LabelledStep(l: string, k: nat)
    requires k < |HairTypes|
    ensures Labelled(l, k + 1) ==
      if Contains(Labelled(l, k), HairTypes[k]) then HairTypes[k] else Labelled(l, k)
  {
    assert HairTypes[..k + 1] == HairTypes[..k] + [HairTypes[k]];
    FirstContainedSnoc(l, HairTypes[..k], HairTypes[k]);
    HairTypesNotNested();
  }

  /** The final pass turns the label after all keywords into the row's hair type. */
  lemma LabelledFinal(breed: string)
    ensures (if Labelled(Lower(breed), |HairTypes|) in HairTypes then Labelled(Lower(breed), |HairTypes|) else "unknown")
      == HairTypeOf(breed)
  {
    var l := Lower(breed);
    assert HairTypes[..|HairTypes|] == HairTypes;
    HairTypesNotNested();
    if FirstContained(l, HairTypes).None? {
      forall m | 0 <= m < |HairTypes|
        ensures HairTypes[m] != l
      {
        assert Contains(HairTypes[m], HairTypes[m]) && !Contains(l, HairTypes[m]);
      }
    }
  }

  /**
   * `get_hair_type`: the lower-cased column; for each keyword in turn, rows
   * whose current value contains it take the keyword; finally every value
   * that is not a keyword becomes "unknown".
   */
  method GetHairType(breed: seq<string>) returns (hairType: seq<string>)
    ensures hairType == HairTypeColumn(breed)
  {
    var n := |breed|;
    var a := new string[n](i requires 0 <= i < n => Lower(breed[i]));
    assert HairTypes[..0] == [];
    for k := 0 to |HairTypes|
      invariant forall i :: 0 <= i < n ==> a[i] == Labelled(Lower(breed[i]), k)
    {
      var hair := HairTypes[k];
      var w := a[..];
      MaskedAssign(a, seq(n, i requires 0 <= i < n => Contains(w[i], hair)), hair);
      forall i | 0 <= i < n
        ensures a[i] == Labelled(Lower(breed[i]), k + 1)
      {
        LabelledStep(Lower(breed[i]), k);
      }
    }
    var w := a[..];
    MaskedAssign(a, seq(n, i requires 0 <= i < n => w[i] !in HairTypes), "unknown");
    forall i | 0 <= i < n
      ensures a[i] == HairTypeOf(breed[i])
    {
      LabelledFinal(breed[i]);
    }
    hairType := a[..];
    assert hairType == HairTypeColumn(breed);
  }
}
