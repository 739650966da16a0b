/**
 * `load_data` after the file has been read: column names are normalised
 * (`upon` becomes `Upon`, then CamelCase becomes snake_case) and every
 * missing cell becomes the string "Unknown".
 */
module Loader {
  import opened Wrappers
  import opened PyStr
  import opened CamelCase
  import opened Frames

  /** The table as the CSV reader hands it over: a missing cell is `None`. */
  datatype RawFrame = RawFrame(rows: nat, names: seq<string>, columns: seq<seq<Option<string>>>)

  predicate WellFormed(raw: RawFrame) {
    && |raw.names| == |raw.columns|
    && forall k :: 0 <= k < |raw.columns| ==> |raw.columns[k]| == raw.rows
  }

  /**
   * The scan of `str.replace` from `i` on, for `upon` and `Upon`: every
   * position where `upon` starts has its `u` raised to `U`, every other
   * character is copied.  Occurrences of `upon` cannot overlap, so the scan,
   * which resumes after each match, misses none.
   */
  lemma {:induction false} UponScan(s: string, i: nat)
    requires i <= |s|
    ensures |ReplaceFrom(s, "upon", "Upon", i)| == |s| - i
    ensures forall k :: i <= k < |s| ==>
      ReplaceFrom(s, "upon", "Upon", i)[k - i] == if OccursAt(s, "upon", k) then 'U' else s[k]
    decreases |s| - i
  {
    if i < |s| {
      var r := ReplaceFrom(s, "upon", "Upon", i);
      if OccursAt(s, "upon", i) {
        UponScan(s, i + 4);
        OccursAtIsSlice(s, "upon", i);
        forall k | i < k < i + 4
          ensures r[k - i] == s[k] && !OccursAt(s, "upon", k)
        {
          assert s[k] == s[i..i + 4][k - i];
          assert s[k] != 'u';
        }
      } else {
        UponScan(s, i + 1);
      }
    }
  }

  /**
   * `name.replace('upon', 'Upon')`: the `u` of each occurrence of `upon`
   * becomes `U` and nothing else changes, so no `upon` is left and the
   * lower-cased name is the same.
   */
  function FixUpon(name: string): (r: string)
    ensures |r| == |name|
    ensures forall i :: 0 <= i < |name| ==> r[i] == if OccursAt(name, "upon", i) then 'U' else name[i]
    ensures !Contains(r, "upon")
    ensures Lower(r) == Lower(name)
  {
    ReplaceFromKeepsLower(name, "upon", "Upon", 0);
    UponScan(name, 0);
    assert name[0..] == name;
    var r := Replace(name, "upon", "Upon");
    NoUponLeft(name, r);
    r
  }

  /** A name whose every `upon` had its `u` raised holds no `upon`. */
  lemma NoUponLeft(name: string, r: string)
    requires |r| == |name|
    requires forall i :: 0 <= i < |name| ==> r[i] == if OccursAt(name, "upon", i) then 'U' else name[i]
    ensures !Contains(r, "upon")
  {
    forall j
      ensures !OccursAt(r, "upon", j)
    {
      OccursAtIsSlice(r, "upon", j);
      if 0 <= j && j + 4 <= |r| {
        if OccursAt(name, "upon", j) {
          assert r[j..j + 4][0] == 'U';
        } else {
          OccursAtIsSlice(name, "upon", j);
          assert exists m :: 0 <= m < 4 && name[j..j + 4][m] != "upon"[m];
          var m :| 0 <= m < 4 && name[j..j + 4][m] != "upon"[m];
          assert r[j..j + 4][m] != "upon"[m];
        }
      }
    }
    ContainsIff(r, "upon");
  }

  /**
   * The two renames of `load_data`: the result is snake_case (no upper-case
   * letter) and is the lower-cased original name with underscores inserted.
   */
  function NormalizeName(name: string): (r: string)
    ensures NoUpper(r)
    ensures Inserted(Lower(name), r)
  {
    ConvertCamelCase(FixUpon(name))
  }

  /** `fillna('Unknown')` on one column. */
  function FillNa(cells: seq<Option<string>>): (r: seq<string>)
    ensures |r| == |cells|
    ensures forall i :: 0 <= i < |cells| ==> r[i] == if cells[i].Some? then cells[i].value else "Unknown"
  {
    seq(|cells|, i requires 0 <= i < |cells| => if cells[i].Some? then cells[i].value else "Unknown")
  }

  /**
   * The loaded table: same rows, one text column per raw column, in order,
   * under the normalised name, with no cell missing.
   */
  function LoadFrame(raw: RawFrame): (df: Frame)
    requires WellFormed(raw)
    ensures df.rows == raw.rows && |df.names| == |raw.names| == |df.columns|
    ensures forall k :: 0 <= k < |df.names| ==> df.names[k] == NormalizeName(raw.names[k]) && NoUpper(df.names[k])
    ensures forall k :: 0 <= k < |df.columns| ==> df.columns[k].Text? && |df.columns[k].cells| == df.rows
    ensures forall k, i :: 0 <= k < |df.columns| && 0 <= i < df.rows ==>
      df.columns[k].cells[i] == if raw.columns[k][i].Some? then raw.columns[k][i].value else "Unknown"
  {
    var names := seq(|raw.names|, k requires 0 <= k < |raw.names| => NormalizeName(raw.names[k]));
    var columns := seq(|raw.columns|, k requires 0 <= k < |raw.columns| => Text(FillNa(raw.columns[k])));
    Frame(raw.rows, names, columns)
  }

  /** When the normalised names are all different, the loaded table is a valid frame. */
  lemma LoadFrameValid(raw: RawFrame)
    requires WellFormed(raw)
    requires Distinct(LoadFrame(raw).names)
    ensures Valid(LoadFrame(raw))
  {
  }
}
