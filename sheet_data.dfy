/**
 * The flattening done by get_sheet_data: the grid of cell strings read from
 * a worksheet becomes its header row, one record per remaining row mapping
 * each header to that row's cell, a row count and a status envelope.
 * The worksheet lookup that produces the grid, and the worksheet title,
 * are inputs.
 */
module SheetData {
  import opened Wrappers
  import opened JsonValue
  import opened Envelope

  /** One data row as a dictionary from header to cell. */
  type RowDict = map<string, string>

  /** The cell at column i of a row; a row shorter than that reads as "". */
  function Cell(row: seq<string>, i: nat): (c: string)
    ensures i < |row| ==> c == row[i]
    ensures i >= |row| ==> c == ""
  {
    if i < |row| then row[i] else ""
  }

  /** The last column whose header is h. */
  function LastIndex(headers: seq<string>, h: string): (k: nat)
    requires h in headers
    ensures k < |headers| && headers[k] == h
    ensures forall j :: k < j < |headers| ==> headers[j] != h
    decreases |headers|
  {
    if headers[|headers| - 1] == h then |headers| - 1
    else LastIndex(headers[..|headers| - 1], h)
  }

  /**
   * The record of a row: one entry per distinct header, holding the row's
   * cell from the last column with that header.
   */
  function RecordOf(headers: seq<string>, row: seq<string>): (r: RowDict)
    ensures r.Keys == set h | h in headers
  {
    map h | h in headers :: Cell(row, LastIndex(headers, h))
  }

  /** The record of the first i + 1 headers extends that of the first i. */
  lemma RecordExtend(headers: seq<string>, row: seq<string>, i: nat)
    requires i < |headers|
    ensures RecordOf(headers[..i + 1], row) == RecordOf(headers[..i], row)[headers[i] := Cell(row, i)]
  {
  }

  /** The inner loop of get_sheet_data: fills the record header by header. */
  method BuildRecord(headers: seq<string>, row: seq<string>) returns (rec: RowDict)
    ensures rec == RecordOf(headers, row)
  {
    rec := map[];
    for i := 0 to |headers|
      invariant rec == RecordOf(headers[..i], row)
    {
      RecordExtend(headers, row, i);
      rec := rec[headers[i] := if i < |row| then row[i] else ""];
    }
    assert headers[..|headers|] == headers;
  }

  /**
   * Later columns overwrite earlier ones: a header takes the cell of the
   * last column that carries it.
   */
  lemma RecordLastWins(headers: seq<string>, row: seq<string>, i: nat)
    requires i < |headers|
    requires forall j :: i < j < |headers| ==> headers[j] != headers[i]
    ensures headers[i] in RecordOf(headers, row)
    ensures RecordOf(headers, row)[headers[i]] == (if i < |row| then row[i] else "")
  {
  }

  /** With no repeated header, every column lands in its own entry. */
  lemma RecordDistinctHeaders(headers: seq<string>, row: seq<string>)
    requires forall i, j :: 0 <= i < j < |headers| ==> headers[i] != headers[j]
    ensures forall i :: 0 <= i < |headers| ==> RecordOf(headers, row)[headers[i]] == Cell(row, i)
  {
  }

  /**
   * Every value of a record is "" or a cell of the row at a column the
   * header row covers; cells beyond the header count never appear.
   */
  lemma RecordValuesFromHeaderColumns(headers: seq<string>, row: seq<string>, h: string)
    requires h in RecordOf(headers, row)
    ensures exists i :: (0 <= i < |headers| && headers[i] == h &&
                         RecordOf(headers, row)[h] == (if i < |row| then row[i] else ""))
  {
  }

  /** A record depends only on the cells of the columns the headers cover. */
  lemma RecordOnlyReadsHeaderColumns(headers: seq<string>, row1: seq<string>, row2: seq<string>)
    requires forall i :: 0 <= i < |headers| ==> Cell(row1, i) == Cell(row2, i)
    ensures RecordOf(headers, row1) == RecordOf(headers, row2)
  {
  }

  /** Padding a short row with empty cells does not change its record. */
  lemma RecordPaddedRow(headers: seq<string>, row: seq<string>, n: nat)
    ensures RecordOf(headers, row + seq(n, _ => "")) == RecordOf(headers, row)
  {
  }

  /** Cutting a long row down to the header count does not change its record. */
  lemma RecordTruncatedRow(headers: seq<string>, row: seq<string>)
    requires |row| >= |headers|
    ensures RecordOf(headers, row[..|headers|]) == RecordOf(headers, row)
  {
  }

  /** The number of distinct strings in a list is at most its length, and equal to it when they are distinct. */
  lemma {:induction false} DistinctCount(s: seq<string>)
    ensures |set h | h in s| <= |s|
    ensures (forall i, j :: 0 <= i < j < |s| ==> s[i] != s[j]) ==> |set h | h in s| == |s|
  {
    if s != [] {
      var init := s[..|s| - 1];
      DistinctCount(init);
      assert (set h | h in s) == (set h | h in init) + {s[|s| - 1]} by {
        assert s == init + [s[|s| - 1]];
      }
      if forall i, j :: 0 <= i < j < |s| ==> s[i] != s[j] {
        assert s[|s| - 1] !in init;
      }
    }
  }

  /**
   * A record has at most one entry per column, and exactly one per column
   * when no header repeats.
   */
  lemma RecordSize(headers: seq<string>, row: seq<string>)
    ensures |RecordOf(headers, row)| <= |headers|
    ensures (forall i, j :: 0 <= i < j < |headers| ==> headers[i] != headers[j]) ==>
      |RecordOf(headers, row)| == |headers|
  {
    DistinctCount(headers);
  }

  /** Reads a record back into a row, one cell per header. */
  function RowOf(headers: seq<string>, rec: RowDict): (row: seq<string>)
    ensures |row| == |headers|
  {
    seq(|headers|, i requires 0 <= i < |headers| => if headers[i] in rec then rec[headers[i]] else "")
  }

  /**
   * With no repeated header, a record keeps every covered cell: reading it
   * back gives the row padded or cut to the header count.
   */
  lemma RowOfRecordOf(headers: seq<string>, row: seq<string>)
    requires forall i, j :: 0 <= i < j < |headers| ==> headers[i] != headers[j]
    ensures forall i :: 0 <= i < |headers| ==> RowOf(headers, RecordOf(headers, row))[i] == Cell(row, i)
    ensures |row| == |headers| ==> RowOf(headers, RecordOf(headers, row)) == row
  {
  }

  /**
   * The value get_sheet_data returns; absent dictionary keys are None.
   * ErrorCode is modelled as an int-or-string sum, since the source uses
   * both.
   */
  datatype SheetResult = SheetResult(
    sheetName: Option<string>,
    headers: seq<string>,
    inventoryList: Option<seq<RowDict>>,
    errorResponse: MktResponse,
    total: nat)

  /** The envelope of an empty worksheet. */
  const NoData: MktResponse := Error(IntCode(-1), Some("sin datos"))

  /** The records of a grid's rows after the header row, in row order. */
  function Records(headers: seq<string>, rows: seq<seq<string>>): (recs: seq<RowDict>)
    ensures |recs| == |rows|
    ensures forall k :: 0 <= k < |rows| ==> recs[k] == RecordOf(headers, rows[k])
  {
    seq(|rows|, k requires 0 <= k < |rows| => RecordOf(headers, rows[k]))
  }

  /** What get_sheet_data returns for a grid and the worksheet's title. */
  function Flatten(sheetTitle: string, allValues: seq<seq<string>>): (d: SheetResult)
    ensures allValues == [] ==> d.headers == [] && d.total == 0 && d.inventoryList.None?
    ensures allValues == [] ==> d.sheetName.None? && d.errorResponse == NoData
    ensures allValues != [] ==> d.headers == allValues[0] && d.sheetName == Some(sheetTitle)
    ensures allValues != [] ==> d.inventoryList.Some? && |d.inventoryList.value| == d.total == |allValues| - 1
    ensures allValues != [] ==> d.errorResponse == Success(JString("OK"))
  {
    if allValues == [] then SheetResult(None, [], None, NoData, 0)
    else
      var rows := allValues[1..];
      SheetResult(Some(sheetTitle), allValues[0], Some(Records(allValues[0], rows)), Success(JString("OK")), |rows|)
  }

  /** get_sheet_data after the grid is read: the outer loop over the rows. */
  method GetSheetData(sheetTitle: string, allValues: seq<seq<string>>) returns (d: SheetResult)
    ensures d == Flatten(sheetTitle, allValues)
  {
    if allValues == [] {
      return SheetResult(None, [], None, NoData, 0);
    }
    var headers := allValues[0];
    var rows := allValues[1..];
    var dataDicts: seq<RowDict> := [];
    for k := 0 to |rows|
      invariant |dataDicts| == k
      invariant forall j :: 0 <= j < k ==> dataDicts[j] == RecordOf(headers, rows[j])
    {
      var rowDict := BuildRecord(headers, rows[k]);
      dataDicts := dataDicts + [rowDict];
    }
    assert dataDicts == Records(headers, rows);
    d := SheetResult(Some(sheetTitle), headers, Some(dataDicts), Success(JString("OK")), |rows|);
  }

  /**
   * Record k comes from grid row k + 1: each header maps to that row's cell
   * at the header's last column, and to nothing else.
   */
  lemma FlattenRecordCells(sheetTitle: string, allValues: seq<seq<string>>, k: nat, i: nat)
    requires |allValues| > 0 && k < |allValues| - 1 && i < |allValues[0]|
    requires forall j :: i < j < |allValues[0]| ==> allValues[0][j] != allValues[0][i]
    ensures var d := Flatten(sheetTitle, allValues);
      d.inventoryList.value[k].Keys == (set h | h in allValues[0]) &&
      d.inventoryList.value[k][allValues[0][i]] == Cell(allValues[k + 1], i)
  {
  }

  /** A sheet holding only its header row has no records and a total of 0. */
  lemma HeaderOnlySheet(sheetTitle: string, headers: seq<string>)
    ensures Flatten(sheetTitle, [headers]).inventoryList == Some([])
    ensures Flatten(sheetTitle, [headers]).total == 0
    ensures !Flatten(sheetTitle, [headers]).errorResponse.esError
  {
  }

  /** The records as the JSON list sent under inventoryList, one object per record. */
  function RecordsJson(recs: seq<RowDict>): (r: seq<Json>)
    ensures |r| == |recs|
    ensures forall k :: 0 <= k < |recs| ==> r[k] == JObject(StringMap(recs[k]))
  {
    seq(|recs|, k requires 0 <= k < |recs| => JObject(StringMap(recs[k])))
  }

  /** The dictionary get_sheet_data returns. */
  function ToDict(d: SheetResult): (r: map<string, Json>)
    ensures r.Keys >= {"headers", "total", "errorResponse"}
    ensures "sheet_name" in r <==> d.sheetName.Some?
    ensures "inventoryList" in r <==> d.inventoryList.Some?
    ensures r.Keys <= {"sheet_name", "headers", "inventoryList", "errorResponse", "total"}
    ensures r["headers"] == JArray(Strings(d.headers)) && r["total"] == JInt(d.total)
    ensures r["errorResponse"] == JObject(Envelope.ToDict(d.errorResponse))
    ensures d.sheetName.Some? ==> r["sheet_name"] == JString(d.sheetName.value)
    ensures d.inventoryList.Some? ==> r["inventoryList"] == JArray(RecordsJson(d.inventoryList.value))
  {
    var base := map["headers" := JArray(Strings(d.headers)),
                     "total" := JInt(d.total),
                     "errorResponse" := JObject(Envelope.ToDict(d.errorResponse))];
    var named := if d.sheetName.Some? then base["sheet_name" := JString(d.sheetName.value)] else base;
    if d.inventoryList.Some? then
      var recs := d.inventoryList.value;
      named["inventoryList" := JArray(RecordsJson(recs))]
    else named
  }

  /** The whole dictionary returned for an empty worksheet. */
  lemma EmptySheetDict(sheetTitle: string)
    ensures ToDict(Flatten(sheetTitle, [])) ==
      map["headers" := JArray([]),
          "total" := JInt(0),
          "errorResponse" := JObject(map["EsError" := JBool(true), "ErrorCode" := JInt(-1),
                                         "Message" := JString("sin datos"), "Result" := JNull])]
  {
  }

  /** The dictionary returned for a non-empty worksheet. */
  lemma LoadedSheetDict(sheetTitle: string, allValues: seq<seq<string>>)
    requires allValues != []
    ensures var r := ToDict(Flatten(sheetTitle, allValues));
      r.Keys == {"sheet_name", "headers", "inventoryList", "errorResponse", "total"} &&
      r["sheet_name"] == JString(sheetTitle) &&
      r["total"] == JInt(|allValues| - 1) &&
      r["headers"] == JArray(Strings(allValues[0])) &&
      r["inventoryList"].JArray? && |r["inventoryList"].items| == |allValues| - 1 &&
      (forall k :: 0 <= k < |allValues| - 1 ==>
         r["inventoryList"].items[k] == JObject(StringMap(RecordOf(allValues[0], allValues[k + 1])))) &&
      r["errorResponse"] == JObject(map["EsError" := JBool(false), "ErrorCode" := JString("0"),
                                        "Message" := JString(SuccessMessage), "Result" := JString("OK")])
  {
  }

  /**
   * A rectangular grid with distinct headers is rebuilt from the result:
   * the header row followed by each record read back into a row.
   */
  lemma {:induction false} FlattenRoundTrip(sheetTitle: string, allValues: seq<seq<string>>)
    requires allValues != []
    requires forall i, j :: 0 <= i < j < |allValues[0]| ==> allValues[0][i] != allValues[0][j]
    requires forall k :: 0 <= k < |allValues| ==> |allValues[k]| == |allValues[0]|
    ensures var d := Flatten(sheetTitle, allValues);
      [d.headers] + seq(d.total, k requires 0 <= k < d.total => RowOf(d.headers, d.inventoryList.value[k]))
        == allValues
  {
    var d := Flatten(sheetTitle, allValues);
    var headers, recs := allValues[0], d.inventoryList.value;
    var rebuilt := [headers] + seq(d.total, k requires 0 <= k < d.total => RowOf(headers, recs[k]));
    forall k | 0 <= k < |allValues|
      ensures rebuilt[k] == allValues[k]
    {
      if k > 0 {
        assert recs[k - 1] == RecordOf(headers, allValues[k]);
        RowOfRecordOf(headers, allValues[k]);
      }
    }
  }
}
