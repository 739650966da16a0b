/**
 * The table the loader produces and the feature rules extend: named,
 * equal-length columns over a fixed number of rows, as a pandas DataFrame
 * keeps them.
 */
module Frames {
  import opened Wrappers

  /** A column of strings (object dtype), of booleans, or of numbers that may be missing (NaN). */
  datatype Column =
    | Text(cells: seq<string>)
    | Flags(flags: seq<bool>)
    | Numbers(values: seq<Option<int>>)

  function Length(c: Column): nat {
    match c
    case Text(cells) => |cells|
    case Flags(flags) => |flags|
    case Numbers(values) => |values|
  }

  datatype Frame = Frame(rows: nat, names: seq<string>, columns: seq<Column>)

  predicate Distinct(names: seq<string>) {
    forall i, j :: 0 <= i < j < |names| ==> names[i] != names[j]
  }

  /** One column per name, no name twice, every column `rows` long. */
  predicate Valid(df: Frame) {
    && |df.names| == |df.columns|
    && Distinct(df.names)
    && forall k :: 0 <= k < |df.columns| ==> Length(df.columns[k]) == df.rows
  }

  /** Position of the first column called `name`. */
  function IndexOf(names: seq<string>, name: string): (r: Option<nat>)
    ensures r.None? <==> name !in names
    ensures r.Some? ==> r.value < |names| && names[r.value] == name
    ensures r.Some? ==> forall k :: 0 <= k < r.value ==> names[k] != name
  {
    if names == [] then None
    else if names[0] == name then Some(0)
    else match IndexOf(names[1..], name)
      case None => None
      case Some(k) => Some(k + 1)
  }

  /** `df[name]`: the column called `name`, or nothing (a KeyError). */
  function Lookup(df: Frame, name: string): (r: Option<Column>)
    requires Valid(df)
    ensures r.None? <==> name !in df.names
    ensures r.Some? ==> Length(r.value) == df.rows
  {
    match IndexOf(df.names, name)
    case None => None
    case Some(k) => Some(df.columns[k])
  }

  /** The name at position `k` looks up the column at position `k`: names are distinct. */
  lemma LookupAt(df: Frame, k: nat)
    requires Valid(df) && k < |df.names|
    ensures Lookup(df, df.names[k]) == Some(df.columns[k])
  {
    var j := IndexOf(df.names, df.names[k]).value;
    assert df.names[j] == df.names[k];
  }

  /**
   * `df[name] = col`: an existing column of that name is replaced where it
   * stands; otherwise the column is appended at the end.
   */
  function SetColumn(df: Frame, name: string, col: Column): (r: Frame)
    requires Valid(df) && Length(col) == df.rows
    ensures Valid(r) && r.rows == df.rows
    ensures name in df.names ==> r.names == df.names
    ensures name !in df.names ==> r.names == df.names + [name]
  {
    match IndexOf(df.names, name)
    case Some(k) => Frame(df.rows, df.names, df.columns[k := col])
    case None => Frame(df.rows, df.names + [name], df.columns + [col])
  }

  /** After `df[name] = col`, `df[name]` is `col`. */
  lemma SetColumnAssigned(df: Frame, name: string, col: Column)
    requires Valid(df) && Length(col) == df.rows
    ensures Lookup(SetColumn(df, name, col), name) == Some(col)
  {
    var r := SetColumn(df, name, col);
    match IndexOf(df.names, name)
    case Some(k) => LookupAt(r, k);
    case None => LookupAt(r, |df.names|);
  }

  /** After `df[name] = col`, every other column reads as before. */
  lemma SetColumnOthers(df: Frame, name: string, col: Column, n: string)
    requires Valid(df) && Length(col) == df.rows && n != name
    ensures Lookup(SetColumn(df, name, col), n) == Lookup(df, n)
  {
    var r := SetColumn(df, name, col);
    match IndexOf(df.names, n)
    case Some(k) =>
      LookupAt(df, k);
      LookupAt(r, k);
    case None =>
      assert n !in r.names;
  }

  /** Assigning a column the value it already has leaves the frame as it was. */
  lemma SetColumnUnchanged(df: Frame, name: string)
    requires Valid(df) && name in df.names
    ensures SetColumn(df, name, Lookup(df, name).value) == df
  {
    var k := IndexOf(df.names, name).value;
    assert df.columns[k := df.columns[k]] == df.columns;
  }
}
