/**
 * The right-hand dataset preview (`renderTableRight`), as the value it
 * shows rather than the DOM it builds.
 */
module Preview {
  import opened Options
  import opened Text
  import opened Delimited

  /** The most rows the preview shows. */
  const MaxShown: nat := 500

  /**
   * What the panel shows: the "no data" notice, or a titled table with the
   * dataset's true row count, the column keys, their headings, and one row
   * of cells per shown record (None where the record lacks the key, shown empty).
   */
  datatype Preview =
    | NoData
    | Table(title: string, total: nat, columns: seq<string>, headings: seq<string>,
            cells: seq<seq<Option<Value>>>)

  function Min(a: nat, b: nat): nat {
    if a < b then a else b
  }

  /** `c.replaceAll("_", " ")`. */
  function Heading(c: string): string {
    Replace(c, '_', ' ')
  }

  /** One table row: `row[c]` for each column `c`. */
  function RowCells(row: Record, columns: seq<string>): seq<Option<Value>> {
    seq(|columns|, j requires 0 <= j < |columns| => Lookup(row, columns[j]))
  }

  /** `renderTableRight(data, title)`; `None` is a `null` dataset. */
  function Render(data: Option<Dataset>, title: string): (p: Preview)
    ensures p.NoData? <==> data.None? || data.value == []
    ensures p.Table? ==>
      && p.title == title
      && p.total == |data.value|
      && p.columns == Keys(data.value[0])
      && |p.headings| == |p.columns|
      && (forall j :: 0 <= j < |p.columns| ==> p.headings[j] == Heading(p.columns[j]))
      && |p.cells| == Min(MaxShown, |data.value|)
      && (forall i :: 0 <= i < |p.cells| ==> |p.cells[i]| == |p.columns|)
      && (forall i, j :: 0 <= i < |p.cells| && 0 <= j < |p.columns| ==>
            p.cells[i][j] == Lookup(data.value[i], p.columns[j]))
  {
    if data.None? || data.value == [] then NoData
    else
      var rows := data.value;
      var columns := Keys(rows[0]);
      var shown := rows[..Min(MaxShown, |rows|)];
      Table(title, |rows|, columns,
            seq(|columns|, j requires 0 <= j < |columns| => Heading(columns[j])),
            seq(|shown|, i requires 0 <= i < |shown| => RowCells(shown[i], columns)))
  }

  /** A dataset of more than 500 records shows exactly 500 rows and reports its true size. */
  lemma LargeDatasetIsCapped(data: Dataset, title: string)
    requires |data| > MaxShown
    ensures Render(Some(data), title).Table?
    ensures |Render(Some(data), title).cells| == MaxShown
    ensures Render(Some(data), title).total == |data|
  {
  }

  /**
   * The preview reads only the first record's keys and the first 500 records:
   * two datasets of the same size that agree there show the same table.
   */
  lemma RenderReadsOnlyShownRows(d1: Dataset, d2: Dataset, title: string)
    requires |d1| == |d2| > 0
    requires d1[..Min(MaxShown, |d1|)] == d2[..Min(MaxShown, |d2|)]
    ensures Render(Some(d1), title) == Render(Some(d2), title)
  {
    var n := Min(MaxShown, |d1|);
    assert d1[0] == d1[..n][0] && d2[0] == d2[..n][0];
  }

  /** No heading holds an underscore: every `_` of a key is shown as a space. */
  lemma HeadingsHaveNoUnderscore(c: string)
    ensures |Heading(c)| == |c|
    ensures '_' !in Heading(c)
  {
  }
}
