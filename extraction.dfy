/** The result extractor: one pass over the rendered result rows of the
    search page, building the plain records and, index-aligned with them, the
    records with a price category. */
module Extraction {
  import opened Wrappers
  import opened Coercion

  /** One transaction as read from a result row; the numbers are absent when
      their cell held no digit. */
  datatype PropertyRecord = PropertyRecord(
    district: string,
    price: Option<nat>,
    area: Option<nat>,
    pricePerMeter: Option<nat>,
    date: string)

  /** A plain record with the one added `category` field. */
  datatype CategorizedRecord = CategorizedRecord(base: PropertyRecord, category: Option<Category>)

  /** What reading one row gives: the inner text of its cells, or an error
      raised while reading them (the row is then skipped). */
  datatype RowRead = Cells(cells: seq<string>) | ReadError

  /** The number of cells a row needs before it is used. */
  const MinCells: nat := 6

  predicate Usable(row: RowRead) {
    row.Cells? && |row.cells| >= MinCells
  }

  /** The record a usable row gives: the district and the date stripped of
      white space, the three numbers through `extract_number`; cells 1 to 5
      are read, cell 0 is ignored. */
  function RecordOf(cells: seq<string>): (r: PropertyRecord)
    requires |cells| >= MinCells
    ensures Stripped(r.district) && Stripped(r.date)
    ensures r.price.None? <==> NoDigit(cells[2])
    ensures r.area.None? <==> NoDigit(cells[3])
    ensures r.pricePerMeter.None? <==> NoDigit(cells[4])
  {
    PropertyRecord(
      Strip(cells[1]),
      ExtractNumber(cells[2]),
      ExtractNumber(cells[3]),
      ExtractNumber(cells[4]),
      Strip(cells[5]))
  }

  /** `property_info.copy()` with the one added `category` key: the record is
      kept as it is, and the category is absent exactly when the price per
      meter is. */
  function WithCategory(r: PropertyRecord): (c: CategorizedRecord)
    ensures c.base == r
    ensures c.category.None? <==> r.pricePerMeter.None?
  {
    CategorizedRecord(r, DetermineCategory(r.pricePerMeter))
  }

  /** The plain records of a run of rows, in row order. */
  function PlainRecords(rows: seq<RowRead>): (recs: seq<PropertyRecord>)
    ensures recs == [] <==> forall j :: 0 <= j < |rows| ==> !Usable(rows[j])
  {
    if rows == [] then []
    else
      var rest := PlainRecords(rows[..|rows| - 1]);
      var last := rows[|rows| - 1];
      if Usable(last) then rest + [RecordOf(last.cells)] else rest
  }

  /** The categorized records: the plain records, each with its category. */
  function CategorizedRecords(plain: seq<PropertyRecord>): (cs: seq<CategorizedRecord>)
    ensures |cs| == |plain|
    ensures forall i :: 0 <= i < |plain| ==> cs[i] == WithCategory(plain[i])
  {
    seq(|plain|, i requires 0 <= i < |plain| => WithCategory(plain[i]))
  }

  /** The number of usable rows. */
  function UsableCount(rows: seq<RowRead>): nat {
    if rows == [] then 0
    else UsableCount(rows[..|rows| - 1]) + (if Usable(rows[|rows| - 1]) then 1 else 0)
  }

  /** The row loop of `scrape`: a usable row appends its record to the plain
      list and the same record with its category to the second list; a short
      row or a row whose reading raised appends nothing. */
  method ExtractRows(rows: seq<RowRead>) returns (plain: seq<PropertyRecord>, categorized: seq<CategorizedRecord>)
    ensures plain == PlainRecords(rows)
    ensures |categorized| == |plain|
    ensures forall i :: 0 <= i < |plain| ==> categorized[i] == WithCategory(plain[i])
  {
    plain, categorized := [], [];
    var n := 0;
    while n < |rows|
      invariant 0 <= n <= |rows|
      invariant plain == PlainRecords(rows[..n])
      invariant categorized == CategorizedRecords(plain)
    {
      PlainRecordsSnoc(rows, n);
      match rows[n] {
        case ReadError =>
        case Cells(cells) =>
          if |cells| >= MinCells {
            var info := RecordOf(cells);
            CategorizedSnoc(plain, info);
            plain := plain + [info];
            var withCategory := CategorizedRecord(info, DetermineCategory(info.pricePerMeter));
            categorized := categorized + [withCategory];
          }
      }
      n := n + 1;
    }
    assert rows[..n] == rows;
  }

  /** One more plain record adds its categorized record at the end. */
  lemma CategorizedSnoc(plain: seq<PropertyRecord>, r: PropertyRecord)
    ensures CategorizedRecords(plain + [r]) == CategorizedRecords(plain) + [WithCategory(r)]
  {
  }

  /** One more row appends its record when it is usable, and nothing
      otherwise. */
  lemma PlainRecordsSnoc(rows: seq<RowRead>, n: nat)
    requires n < |rows|
    ensures PlainRecords(rows[..n + 1])
            == PlainRecords(rows[..n]) + (if Usable(rows[n]) then [RecordOf(rows[n].cells)] else [])
  {
    var front := rows[..n + 1];
    assert front[..|front| - 1] == rows[..n] && front[|front| - 1] == rows[n];
  }

  /** Extraction distributes over concatenation of row runs: records follow
      row order. */
  lemma {:induction false} PlainRecordsAppend(a: seq<RowRead>, b: seq<RowRead>)
    ensures PlainRecords(a + b) == PlainRecords(a) + PlainRecords(b)
    decreases |b|
  {
    if b == [] {
      assert a + b == a;
    } else {
      var b' := b[..|b| - 1];
      assert (a + b)[..|a + b| - 1] == a + b';
      assert (a + b)[|a + b| - 1] == b[|b| - 1];
      PlainRecordsAppend(a, b');
    }
  }

  /** A single row contributes its record when usable and nothing otherwise. */
  lemma SingleRow(row: RowRead)
    ensures PlainRecords([row]) == if Usable(row) then [RecordOf(row.cells)] else []
  {
    assert [row][..0] == [];
  }

  /** A row with fewer than six cells, or one whose reading raised, is skipped
      without disturbing the rows around it. */
  lemma SkippedRow(a: seq<RowRead>, row: RowRead, b: seq<RowRead>)
    requires !Usable(row)
    ensures PlainRecords(a + [row] + b) == PlainRecords(a) + PlainRecords(b)
  {
    PlainRecordsAppend(a + [row], b);
    PlainRecordsAppend(a, [row]);
    SingleRow(row);
  }

  /** One plain record per usable row. */
  lemma {:induction false} PlainRecordsCount(rows: seq<RowRead>)
    ensures |PlainRecords(rows)| == UsableCount(rows)
  {
    if rows != [] {
      PlainRecordsCount(rows[..|rows| - 1]);
    }
  }

  /** Every plain record comes from some usable row. */
  lemma {:induction false} PlainRecordsFromRows(rows: seq<RowRead>, i: nat)
    requires i < |PlainRecords(rows)|
    ensures exists j :: 0 <= j < |rows| && Usable(rows[j]) && PlainRecords(rows)[i] == RecordOf(rows[j].cells)
  {
    var p := rows[..|rows| - 1];
    if i < |PlainRecords(p)| {
      PlainRecordsFromRows(p, i);
      var j :| 0 <= j < |p| && Usable(p[j]) && PlainRecords(p)[i] == RecordOf(p[j].cells);
      assert rows[j] == p[j];
    } else {
      assert Usable(rows[|rows| - 1]);
    }
  }

  /** Cell 0 (the row's leading column) plays no part in the record. */
  lemma RecordIgnoresFirstCell(cells: seq<string>, other: string)
    requires |cells| >= MinCells
    ensures RecordOf([other] + cells[1..]) == RecordOf(cells)
  {
  }
}
