/** The usual optional value. */
module Wrappers {
  datatype Option<+T> = None | Some(value: T)
}

/**
  The response store: the CSV file `veriler.csv` as the data frame the app
  reads from it and writes back.

  A row is a map from column name to cell; a column the row has no value in
  (pandas' NaN) is a name missing from the map. The file itself is an
  `Option<Table>`: `None` when it does not exist yet.
 */
module Store {
  import opened Wrappers

  /** A cell of the data frame. */
  datatype Value = Text(s: string) | Number(r: real) | Integer(i: int)

  type Row = map<string, Value>

  /** A data frame: its column names and its rows in file order. */
  datatype Table = Table(columns: set<string>, rows: seq<Row>)

  /** The column holding the identity token. */
  const HashColumn: string := "KimlikHash"
  /** The column holding the participant's gender. */
  const GenderColumn: string := "Cinsiyet"
  /** The column holding each submission's average score. */
  const MeanColumn: string := "Ortalama"

  /** The frames the handler sees: `DataFrame()`, or a frame whose cells
      all lie in its columns; a frame without columns has no rows. */
  predicate WellFormed(t: Table)
  {
    && (t.columns == {} ==> t.rows == [])
    && forall i :: 0 <= i < |t.rows| ==> t.rows[i].Keys <= t.columns
  }

  predicate WellFormedFile(file: Option<Table>)
  {
    file.Some? ==> WellFormed(file.value)
  }

  /** `pd.read_csv` when the file exists, else the empty `pd.DataFrame()`. */
  function Load(file: Option<Table>): (t: Table)
    ensures file.None? ==> t.columns == {} && t.rows == []
    ensures file.Some? ==> t == file.value
    ensures WellFormedFile(file) ==> WellFormed(t)
  {
    match file
    case None => Table({}, [])
    case Some(t) => t
  }

  /** `df.empty`: no rows or no columns. */
  predicate IsEmpty(t: Table)
  {
    |t.rows| == 0 || t.columns == {}
  }

  /** Does this row hold the text `v` in column `col`? */
  predicate HasText(r: Row, col: string, v: string)
  {
    col in r && r[col] == Text(v)
  }

  /** The number of rows holding the text `v` in column `col`:
      `(df[col] == v).sum()`. */
  function CountText(rows: seq<Row>, col: string, v: string): (n: nat)
    ensures n <= |rows|
  {
    if rows == [] then 0
    else CountText(rows[..|rows| - 1], col, v) + (if HasText(rows[|rows| - 1], col, v) then 1 else 0)
  }

  /** The rows of `t` submitted under `token`; a frame without a KimlikHash
      column counts none. */
  function PriorCount(t: Table, token: string): (n: nat)
    ensures HashColumn !in t.columns ==> n == 0
  {
    if HashColumn in t.columns then CountText(t.rows, HashColumn, token) else 0
  }

  /** Counting the rows followed by one more row. */
  lemma CountTextAppend(rows: seq<Row>, r: Row, col: string, v: string)
    ensures CountText(rows + [r], col, v)
         == CountText(rows, col, v) + (if HasText(r, col, v) then 1 else 0)
  {
    assert (rows + [r])[..|rows|] == rows;
  }

  /** Rows that lack the column are never counted. */
  lemma {:induction false} CountTextWithoutColumn(rows: seq<Row>, col: string, v: string)
    requires forall i :: 0 <= i < |rows| ==> col !in rows[i]
    ensures CountText(rows, col, v) == 0
  {
    if rows != [] {
      CountTextWithoutColumn(rows[..|rows| - 1], col, v);
    }
  }

  /** In a well-formed frame the column guard is redundant: PriorCount is the
      plain count of matching rows. */
  lemma PriorCountIsRowCount(t: Table, token: string)
    requires WellFormed(t)
    ensures PriorCount(t, token) == CountText(t.rows, HashColumn, token)
  {
    if HashColumn !in t.columns {
      CountTextWithoutColumn(t.rows, HashColumn, token);
    }
  }

  /** `pd.concat([df_existing, df_new], ignore_index=True)` when the existing
      frame is non-empty, else the new one-row frame alone. */
  function Append(t: Table, r: Row): (u: Table)
    requires WellFormed(t) && r.Keys != {}
    ensures WellFormed(u)
    ensures u.rows == t.rows + [r]
    ensures !IsEmpty(t) ==> u.columns == t.columns + r.Keys
    ensures IsEmpty(t) ==> u.columns == r.Keys
  {
    if IsEmpty(t) then Table(r.Keys, [r])
    else Table(t.columns + r.Keys, t.rows + [r])
  }

  /** Appending a row raises the count of the value it holds by one and
      leaves every other count as it was. */
  lemma AppendCount(t: Table, r: Row, token: string)
    requires WellFormed(t) && HashColumn in r
    ensures PriorCount(Append(t, r), token)
         == PriorCount(t, token) + (if r[HashColumn] == Text(token) then 1 else 0)
  {
    PriorCountIsRowCount(t, token);
    CountTextAppend(t.rows, r, HashColumn, token);
  }

  /** `df[col].value_counts().to_dict()`: each text value of the column with
      the number of rows holding it. */
  function Tally(rows: seq<Row>, col: string): (m: map<string, nat>)
    ensures forall v :: v in m ==> 0 < m[v] <= |rows|
  {
    if rows == [] then map[]
    else
      var m := Tally(rows[..|rows| - 1], col);
      var r := rows[|rows| - 1];
      if col in r && r[col].Text? then
        var v := r[col].s;
        m[v := (if v in m then m[v] else 0) + 1]
      else m
  }

  /** The tally lists exactly the values that occur, each with its count. */
  lemma {:induction false} TallyCounts(rows: seq<Row>, col: string, v: string)
    ensures v in Tally(rows, col) <==> CountText(rows, col, v) > 0
    ensures v in Tally(rows, col) ==> Tally(rows, col)[v] == CountText(rows, col, v)
  {
    if rows != [] {
      TallyCounts(rows[..|rows| - 1], col, v);
    }
  }

  /** The admin panel's figures. `NoMean` is a panel cut short after the
      participant count: `df['Ortalama'].mean()` raises on a frame without
      that column, so nothing after it is shown. */
  datatype Summary =
    | NoData
    | NoMean(participants: nat)
    | Summary(participants: nat, genders: Option<map<string, nat>>)

  /** "Toplam Katılımcı" is `len(df)`; the general mean needs an Ortalama
      column; the gender distribution is shown only when the frame has a
      Cinsiyet column; a missing file shows a warning. */
  function AdminSummary(file: Option<Table>): (s: Summary)
    ensures file.None? <==> s.NoData?
    ensures s.NoMean? <==> file.Some? && MeanColumn !in file.value.columns
    ensures !s.NoData? ==> s.participants == |file.value.rows|
    ensures s.Summary? ==> (s.genders.Some? <==> GenderColumn in file.value.columns)
  {
    match file
    case None => NoData
    case Some(t) =>
      if MeanColumn !in t.columns then NoMean(|t.rows|)
      else Summary(|t.rows|, if GenderColumn in t.columns then Some(Tally(t.rows, GenderColumn)) else None)
  }

  /** The gender distribution the admin panel shows gives, for each gender,
      the number of rows recorded with it, and lists no gender nobody chose. */
  lemma AdminGenderCounts(file: Option<Table>, gender: string)
    requires file.Some? && MeanColumn in file.value.columns && GenderColumn in file.value.columns
    ensures var s := AdminSummary(file);
            var n := CountText(file.value.rows, GenderColumn, gender);
            && s.Summary? && s.genders.Some?
            && (gender in s.genders.value <==> n > 0)
            && (gender in s.genders.value ==> s.genders.value[gender] == n)
  {
    TallyCounts(file.value.rows, GenderColumn, gender);
  }
}
