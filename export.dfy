/** The tabular exports `store_to_csv` and `output_to_csv_all_rewards`. A file
    is modelled as its header and its rows; a cell keeps the value it renders
    (the fixed-point text of a number, or the value itself). */
module Export {
  import opened Records
  import opened InPlace

  /** A number is rendered in fixed-point notation; anything else verbatim. */
  datatype Cell = Fixed(x: real) | Verbatim(v: Value)

  datatype Table = Table(header: seq<string>, rows: seq<seq<Cell>>)

  /** The rendering of one value; no numeric value is lost or altered. */
  function FormatCell(v: Value): (c: Cell)
    ensures c.Fixed? <==> Numeric(v).Ok?
    ensures c.Fixed? ==> Numeric(v) == Ok(c.x)
    ensures c.Verbatim? ==> c.v == v
  {
    match v
    case Int(i) => Fixed(i as real)
    case Real(x) => Fixed(x)
    case _ => Verbatim(v)
  }

  /** The row `store_to_csv` writes for a record: its values in its own key
      order. (Every listed key of a dict has a value; the Null is never used
      for one.) */
  function Row(rec: Record): (row: seq<Cell>)
    ensures |row| == |rec.keys|
    ensures IsDict(rec) ==> forall j :: 0 <= j < |rec.keys| ==> row[j] == FormatCell(rec.vals[rec.keys[j]])
  {
    seq(|rec.keys|, j requires 0 <= j < |rec.keys| =>
      FormatCell(if rec.keys[j] in rec.vals then rec.vals[rec.keys[j]] else Null))
  }

  /** The file `store_to_csv` writes from a record list: the first record's keys
      as header, then one row per record; an empty list raises IndexError
      before any row is written. */
  function StoredTable(recs: seq<Record>): (r: Result<Table>)
    ensures r == Err(IndexError) <==> |recs| == 0
    ensures r.Ok? ==> r.value.header == recs[0].keys && |r.value.rows| == |recs|
    ensures r.Ok? ==> forall i :: 0 <= i < |recs| ==> r.value.rows[i] == Row(recs[i])
  {
    if |recs| == 0 then Err(IndexError)
    else Ok(Table(recs[0].keys, seq(|recs|, i requires 0 <= i < |recs| => Row(recs[i]))))
  }

  /** When a record is a dict with the same key order as the first record,
      each cell of its row lies under the header of the key whose value it
      renders. */
  lemma RowLinesUpWithHeader(recs: seq<Record>, i: int, j: int)
    requires 0 <= i < |recs| && IsDict(recs[i]) && recs[i].keys == recs[0].keys
    requires 0 <= j < |recs[0].keys|
    ensures Get(recs[i], recs[0].keys[j]).Some?
    ensures Row(recs[i])[j] == FormatCell(Get(recs[i], recs[0].keys[j]).value)
  {
    GetIffKey(recs[i], recs[0].keys[j]);
  }

  /** The columns of the rewards-only export, in order. */
  const RewardColumns: seq<string> := ["height", "price", "price_time", "reward_total", "usd_total"]

  /** The value put in a column: the record's value, or "" for a missing key. */
  function ColumnValue(rec: Record, key: string): (v: Value)
    ensures Get(rec, key).Some? ==> v == Get(rec, key).value
    ensures Get(rec, key).None? ==> v == Str("")
  {
    match Get(rec, key)
    case Some(v) => v
    case None => Str("")
  }

  /** The row `output_to_csv_all_rewards` writes for a record, one cell per
      column of RewardColumns. */
  function Projection(rec: Record): (row: seq<Cell>)
    ensures |row| == |RewardColumns|
    ensures forall j :: 0 <= j < |RewardColumns| ==> row[j] == FormatCell(ColumnValue(rec, RewardColumns[j]))
  {
    [ FormatCell(ColumnValue(rec, "height")),
      FormatCell(ColumnValue(rec, "price")),
      FormatCell(ColumnValue(rec, "price_time")),
      FormatCell(ColumnValue(rec, "reward_total")),
      FormatCell(ColumnValue(rec, "usd_total")) ]
  }

  /** Writing the row of a record just placed at position `i` extends rows that
      project the records before `i`. */
  lemma ProjectionsExtend(rows: seq<seq<Cell>>, recs: seq<Record>, i: int, rec: Record)
    requires 0 <= i < |recs| && |rows| == i
    requires forall j :: 0 <= j < i ==> rows[j] == Projection(recs[j])
    ensures forall j :: 0 <= j < i + 1 ==> (rows + [Projection(rec)])[j] == Projection(recs[i := rec][j])
  {
  }

  /** `line["price"] = int(float(line["price"])) / MULTIPLIER`: KeyError when the
      price is missing, the error of `float` when it does not convert. */
  function RescalePrice(rec: Record, parseFloat: string -> Option<real>): Applied {
    match Get(rec, "price")
    case None => Applied(rec, Raised(KeyError("price")))
    case Some(p) =>
      match ToFloat(p, parseFloat)
      case Err(e) => Applied(rec, Raised(e))
      case Ok(x) => Applied(Set(rec, "price", Real(ScaledPrice(x))), Done)
  }

  /** `int(x) / MULTIPLIER`: the price truncated to an integer, in display units. */
  function ScaledPrice(x: real): real {
    Trunc(x) as real / MULTIPLIER as real
  }

  function Rescaler(parseFloat: string -> Option<real>): Record -> Applied {
    rec => RescalePrice(rec, parseFloat)
  }

  /** Assigning `price` changes the price column of the projection and no other. */
  lemma ProjectionAfterPriceSet(rec: Record, v: Value)
    ensures Projection(Set(rec, "price", v)) == Projection(rec)[1 := FormatCell(v)]
  {
    var out := Set(rec, "price", v);
    assert "height" != "price" && "price_time" != "price" && "reward_total" != "price" && "usd_total" != "price";
    assert Get(out, "height") == Get(rec, "height");
    assert Get(out, "price_time") == Get(rec, "price_time");
    assert Get(out, "reward_total") == Get(rec, "reward_total");
    assert Get(out, "usd_total") == Get(rec, "usd_total");
  }

  /** Rescaling changes the price column only: the projected row of a rescaled
      record holds the rescaled price, and the other four columns as before. */
  lemma RescaledProjection(rec: Record, parseFloat: string -> Option<real>)
    requires RescalePrice(rec, parseFloat).outcome.Done?
    ensures ToFloat(Get(rec, "price").value, parseFloat).Ok?
    ensures Projection(RescalePrice(rec, parseFloat).rec) ==
              Projection(rec)[1 := Fixed(ScaledPrice(ToFloat(Get(rec, "price").value, parseFloat).value))]
  {
    var x := ToFloat(Get(rec, "price").value, parseFloat).value;
    ProjectionAfterPriceSet(rec, Real(ScaledPrice(x)));
  }

  /** After a finished export, record j is its own rescaled self (whose row
      RescaledProjection describes). */
  lemma ExportedRecord(recs: seq<Record>, parseFloat: string -> Option<real>, j: int)
    requires UpdateEach(recs, Rescaler(parseFloat)).outcome.Done? && 0 <= j < |recs|
    ensures RescalePrice(recs[j], parseFloat).outcome.Done?
    ensures UpdateEach(recs, Rescaler(parseFloat)).records[j] == RescalePrice(recs[j], parseFloat).rec
  {
    UpdateEachDone(recs, Rescaler(parseFloat), j);
    assert Rescaler(parseFloat)(recs[j]) == RescalePrice(recs[j], parseFloat);
  }

  /** The price is the one column the export must find: a record without it
      makes its own pass raise KeyError("price"), so the export fails. */
  lemma MissingPriceAborts(recs: seq<Record>, parseFloat: string -> Option<real>, i: int)
    requires 0 <= i < |recs| && Get(recs[i], "price").None?
    ensures RescalePrice(recs[i], parseFloat).outcome == Raised(KeyError("price"))
    ensures UpdateEach(recs, Rescaler(parseFloat)).outcome.Raised?
  {
    UpdateEachFinished(recs, Rescaler(parseFloat));
    assert Rescaler(parseFloat)(recs[i]) == RescalePrice(recs[i], parseFloat);
  }

  /** The export is not idempotent: a second export rescales the price again, so
      a positive integer price ends up different from what the first export
      left. */
  lemma RescaleTwiceDiffers(rec: Record, p: int, parseFloat: string -> Option<real>)
    requires Get(rec, "price") == Some(Int(p)) && p > 0
    ensures RescalePrice(rec, parseFloat).outcome.Done?
    ensures RescalePrice(RescalePrice(rec, parseFloat).rec, parseFloat).outcome.Done?
    ensures Get(RescalePrice(RescalePrice(rec, parseFloat).rec, parseFloat).rec, "price")
            != Get(RescalePrice(rec, parseFloat).rec, "price")
  {
    var m := MULTIPLIER as real;
    var once := p as real / m;
    TruncOfInt(Int(p));
    assert Get(RescalePrice(rec, parseFloat).rec, "price") == Some(Real(once));
    var twice := Trunc(once) as real / m;
    assert once < p as real;
    assert Trunc(once) as real <= once;
    assert Trunc(once) != p;
    assert twice != once;
  }
}
