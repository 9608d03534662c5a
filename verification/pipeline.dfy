/**
  The two runs end to end, without the I/O: the county run (one request for
  every county of the state) and the tract run (one request per county,
  folded). Both coerce the six variables, derive the indicator for every row,
  build the GEOID and project the eight output columns.
 */
module Pipeline {
  import opened Wrappers
  import opened Num
  import opened Coerce
  import opened Indicator
  import opened GeoId
  import opened Query
  import opened Frame
  import opened Partition

  /** Why a run ends without output; each is an uncaught exception in the scripts. */
  datatype RunError =
    | Transport                       // county run: the request raised
    | BadShape                        // county run: the table's width did not match its header
    | EmptyArray                      // county run: `data[0]` on an empty array
    | EmptyPartition(county: string)  // tract run: `data[0]` on an empty array for this county
    | NoData                          // tract run: no county's frame was kept
    | MissingColumn(name: string)     // KeyError on a column the frame lacks

  /** One cell of the output table; `Text(None)` is a GEOID that came out NaN. */
  datatype Cell = Text(text: Option<string>) | Number(value: Num)

  /** The output columns, in output order. */
  const FinalColumns: seq<string> := [
    "GEOID", "neet_count", "neet_count_moe",
    "total_youth", "total_youth_moe",
    "neet_percent", "neet_percent_moe", "neet_percent_cv"]

  const CountyKeys: seq<string> := ["state", "county"]
  const TractKeys: seq<string> := ["state", "county", "tract"]

  /** A variable's value in one row after coercion; a row without the cell reads NaN. */
  function NumericCell(row: Row, name: string): (r: Num)
    ensures name !in row ==> r == Undefined
    ensures name in row ==> r == ToNumeric(row[name])
  {
    if name in row then ToNumeric(row[name]) else Undefined
  }

  /** A variable that a short data line does not reach is padded with None, which coerces to NaN. */
  lemma PaddedCellIsNaN(header: seq<string>, line: seq<string>, name: string)
    requires forall i | 0 <= i < |header| && i < |line| :: header[i] != name
    ensures NumericCell(RowOf(header, line), name) == Undefined
  {
  }

  /** A variable the data line reaches reads as its own cell, coerced. */
  lemma ReachedCellIsCoerced(header: seq<string>, line: seq<string>, i: nat)
    requires i < |header| && i < |line| && header[i] !in header[..i]
    ensures NumericCell(RowOf(header, line), header[i]) == ToNumeric(line[i])
  {
  }

  /** A cell holding a decimal integer reads as exactly that integer. */
  lemma IntegerCellValue(row: Row, name: string, n: int)
    requires name in row && row[name] == IntToString(n)
    ensures NumericCell(row, name) == Defined(n as real)
  {
    CoerceInteger(n);
  }

  /** The six coerced variables of a row, in the order of `Variables()`. */
  function EstimatesOf(row: Row): (e: Estimates)
    ensures e.maleNeet == NumericCell(row, "B14005_008E")
    ensures e.femaleNeet == NumericCell(row, "B14005_015E")
    ensures e.total == NumericCell(row, "B14005_001E")
    ensures e.maleNeetMoe == NumericCell(row, "B14005_008M")
    ensures e.femaleNeetMoe == NumericCell(row, "B14005_015M")
    ensures e.totalMoe == NumericCell(row, "B14005_001M")
  {
    var vs := Variables();
    assert vs[0] == "B14005_008E" && vs[1] == "B14005_015E" && vs[2] == "B14005_001E";
    assert vs[3] == "B14005_008M" && vs[4] == "B14005_015M" && vs[5] == "B14005_001M";
    Estimates(
      NumericCell(row, vs[0]), NumericCell(row, vs[1]), NumericCell(row, vs[2]),
      NumericCell(row, vs[3]), NumericCell(row, vs[4]), NumericCell(row, vs[5]))
  }

  /** The cells under `keys`, concatenated in order. */
  function JoinCells(row: Row, keys: seq<string>): string
    requires forall i | 0 <= i < |keys| :: keys[i] in row
  {
    if |keys| == 0 then "" else row[keys[0]] + JoinCells(row, keys[1..])
  }

  /**
    The GEOID of a row: the concatenation of its geography cells, or NaN when
    any of them is missing (string addition with NaN yields NaN).
   */
  function GeoidOf(row: Row, keys: seq<string>): (g: Option<string>)
    ensures g.Some? <==> forall i | 0 <= i < |keys| :: keys[i] in row
  {
    if forall i | 0 <= i < |keys| :: keys[i] in row then Some(JoinCells(row, keys)) else None
  }

  /** A county row's GEOID is its state code followed by its county code. */
  lemma CountyRowGeoid(row: Row)
    requires "state" in row && "county" in row
    ensures GeoidOf(row, CountyKeys) == Some(CountyGeoid(row["state"], row["county"]))
  {
    var s, c := row["state"], row["county"];
    assert JoinCells(row, CountyKeys[1..][1..]) == "";
    assert JoinCells(row, CountyKeys[1..]) == c + "";
    assert JoinCells(row, CountyKeys) == s + (c + "");
    assert s + (c + "") == s + c;
  }

  /** A tract row's GEOID is its state, county and tract codes in that order. */
  lemma TractRowGeoid(row: Row)
    requires "state" in row && "county" in row && "tract" in row
    ensures GeoidOf(row, TractKeys) == Some(TractGeoid(row["state"], row["county"], row["tract"]))
  {
    var s, c, t := row["state"], row["county"], row["tract"];
    assert JoinCells(row, TractKeys[1..][1..][1..]) == "";
    assert JoinCells(row, TractKeys[1..][1..]) == t + "";
    assert JoinCells(row, TractKeys[1..]) == c + (t + "");
    assert JoinCells(row, TractKeys) == s + (c + (t + ""));
    assert s + (c + (t + "")) == s + c + t;
  }

  /** The value of the output column called `name`. */
  function Column(name: string, geoid: Option<string>, d: Indicator): Cell
    requires name in FinalColumns
  {
    match name
    case "GEOID" => Text(geoid)
    case "neet_count" => Number(d.neetCount)
    case "neet_count_moe" => Number(d.neetCountMoe)
    case "total_youth" => Number(d.totalYouth)
    case "total_youth_moe" => Number(d.totalYouthMoe)
    case "neet_percent" => Number(d.neetPercent)
    case "neet_percent_moe" => Number(d.neetPercentMoe)
    case "neet_percent_cv" => Number(d.neetPercentCv)
    case _ => Text(None)
  }

  /** `df[final_cols]` for one row: the eight output columns in output order. */
  function Project(geoid: Option<string>, d: Indicator): (cells: seq<Cell>)
    ensures |cells| == |FinalColumns| == 8
    ensures forall i | 0 <= i < |cells| :: cells[i] == Column(FinalColumns[i], geoid, d)
  {
    [ Text(geoid), Number(d.neetCount), Number(d.neetCountMoe),
      Number(d.totalYouth), Number(d.totalYouthMoe),
      Number(d.neetPercent), Number(d.neetPercentMoe), Number(d.neetPercentCv) ]
  }

  /** The first of `names` that is not a column, if any. */
  function FirstMissing(names: seq<string>, columns: set<string>): (r: Option<string>)
    ensures r.None? <==> forall i | 0 <= i < |names| :: names[i] in columns
    ensures r.Some? ==> exists i | 0 <= i < |names| ::
      names[i] == r.value && r.value !in columns && forall j | 0 <= j < i :: names[j] in columns
  {
    if |names| == 0 then None
    else if names[0] !in columns then Some(names[0])
    else
      var rest := FirstMissing(names[1..], columns);
      assert forall i | 1 <= i < |names| :: names[1..][i - 1] == names[i];
      if rest.Some? then
        var i :| 0 <= i < |names[1..]| && names[1..][i] == rest.value && rest.value !in columns
          && forall j | 0 <= j < i :: names[1..][j] in columns;
        assert names[i + 1] == rest.value;
        rest
      else rest
  }

  /** One output row from one frame row. */
  function OutputRow(sqrt: real -> real, row: Row, keys: seq<string>): (cells: seq<Cell>)
    requires IsSqrt(sqrt)
    ensures |cells| == 8
    ensures cells[0] == Text(GeoidOf(row, keys))
    ensures cells[1] == Number(Add(NumericCell(row, "B14005_008E"), NumericCell(row, "B14005_015E")))
    ensures cells[2] == Number(CountMoeOf(sqrt, NumericCell(row, "B14005_008M"), NumericCell(row, "B14005_015M")))
    ensures cells[3] == Number(NumericCell(row, "B14005_001E"))
    ensures cells[4] == Number(NumericCell(row, "B14005_001M"))
    ensures cells[5] == Number(PercentOf(cells[1].value, cells[3].value))
    ensures cells[6] == Number(PercentMoeOf(sqrt, cells[5].value, cells[2].value, cells[1].value, cells[4].value, cells[3].value))
    ensures cells[7] == Number(Div(cells[6].value, cells[5].value))
  {
    Project(GeoidOf(row, keys), Derive(sqrt, EstimatesOf(row)))
  }

  /**
    Coercion, derivation, GEOID and projection over a whole frame. The six
    variables are looked up first, then the geography columns; the first one
    the frame lacks raises KeyError.
   */
  function Output(sqrt: real -> real, f: Frame, keys: seq<string>): (r: Result<seq<seq<Cell>>, RunError>)
    requires IsSqrt(sqrt)
    ensures r.Err? <==> exists i | 0 <= i < |Variables() + keys| :: (Variables() + keys)[i] !in f.columns
    ensures r.Err? ==> r.error.MissingColumn? && r.error.name in Variables() + keys && r.error.name !in f.columns
    ensures r.Err? ==> FirstMissing(Variables() + keys, f.columns) == Some(r.error.name)
    ensures r.Ok? ==> |r.value| == |f.rows|
    ensures r.Ok? ==> forall i | 0 <= i < |f.rows| :: r.value[i] == OutputRow(sqrt, f.rows[i], keys)
  {
    match FirstMissing(Variables() + keys, f.columns)
    case Some(name) => Err(MissingColumn(name))
    case None => Ok(seq(|f.rows|, i requires 0 <= i < |f.rows| => OutputRow(sqrt, f.rows[i], keys)))
  }

  /**
    What the county script makes of the answer to its one request: a
    transport failure, an empty array and an ill-shaped table each end the
    run; otherwise the output pass runs over the parsed frame.
   */
  function CountyResponse(sqrt: real -> real, fetched: Fetched): (r: Result<seq<seq<Cell>>, RunError>)
    requires IsSqrt(sqrt)
    ensures r == Err(Transport) <==> fetched == TransportError
    ensures r == Err(EmptyArray) <==> fetched == Payload([])
    ensures r == Err(BadShape) <==> fetched.Payload? && ToFrame(fetched.data) == Err(ShapeMismatch)
    ensures fetched.Payload? && ToFrame(fetched.data).Ok? ==> r == Output(sqrt, ToFrame(fetched.data).value, CountyKeys)
    ensures r.Ok? ==> fetched.Payload? && |fetched.data| > 0 && |r.value| == |fetched.data| - 1
    ensures r.Ok? ==> forall i | 0 <= i < |r.value| ::
      r.value[i] == OutputRow(sqrt, RowOf(fetched.data[0], fetched.data[i + 1]), CountyKeys)
  {
    match fetched
    case TransportError => Err(Transport)
    case Payload(data) =>
      match ToFrame(data)
      case Err(EmptyResponse) => Err(EmptyArray)
      case Err(ShapeMismatch) => Err(BadShape)
      case Ok(f) => Output(sqrt, f, CountyKeys)
  }

  /** The county script: `fetch` answers its one request, `CountyQuery()`, for every county of the state. */
  function CountyRun(sqrt: real -> real, fetch: Query -> Fetched): (r: Result<seq<seq<Cell>>, RunError>)
    requires IsSqrt(sqrt)
    ensures r.Ok? <==>
      && fetch(CountyQuery()).Payload?
      && ToFrame(fetch(CountyQuery()).data).Ok?
      && FirstMissing(Variables() + CountyKeys, ToFrame(fetch(CountyQuery()).data).value.columns).None?
    ensures r.Ok? ==>
      && |r.value| == |fetch(CountyQuery()).data| - 1
      && forall i | 0 <= i < |r.value| ::
        r.value[i] == OutputRow(sqrt, RowOf(fetch(CountyQuery()).data[0], fetch(CountyQuery()).data[i + 1]), CountyKeys)
  {
    CountyResponseSucceeds(sqrt, fetch(CountyQuery()));
    CountyResponse(sqrt, fetch(CountyQuery()))
  }

  /** An answer gets through exactly when it is a well-shaped table holding every looked-up column. */
  lemma CountyResponseSucceeds(sqrt: real -> real, fetched: Fetched)
    requires IsSqrt(sqrt)
    ensures CountyResponse(sqrt, fetched).Ok? <==>
      && fetched.Payload?
      && ToFrame(fetched.data).Ok?
      && FirstMissing(Variables() + CountyKeys, ToFrame(fetched.data).value.columns).None?
  {
    if fetched.Payload? && ToFrame(fetched.data).Ok? {
      var f := ToFrame(fetched.data).value;
      assert CountyResponse(sqrt, fetched) == Output(sqrt, f, CountyKeys);
    }
  }

  /** `if not all_data: raise ...` followed by `pd.concat(all_data, ignore_index=True)` */
  function Combine(rep: Report): (r: Result<Frame, RunError>)
    ensures r == Err(NoData) <==> |rep.frames| == 0
    ensures r.Err? ==> r == Err(NoData)
    ensures r.Ok? ==> r.value == Concat(rep.frames)
    ensures r.Ok? ==> |r.value.rows| == TotalRows(rep.frames)
  {
    if |rep.frames| == 0 then Err(NoData) else Ok(Concat(rep.frames))
  }

  /** The tract script: one request per county, folded, then one pass over the combined frame. */
  function TractRun(sqrt: real -> real, fetch: Query -> Fetched): (r: Result<seq<seq<Cell>>, RunError>)
    requires IsSqrt(sqrt)
    ensures Gather(CountyCodes, fetch).Err? ==> r == Err(EmptyPartition(Gather(CountyCodes, fetch).error))
    ensures Gather(CountyCodes, fetch).Ok? && |Gather(CountyCodes, fetch).value.frames| == 0 ==> r == Err(NoData)
    ensures Gather(CountyCodes, fetch).Ok? && |Gather(CountyCodes, fetch).value.frames| > 0 ==>
      r == Output(sqrt, Concat(Gather(CountyCodes, fetch).value.frames), TractKeys)
    ensures r.Ok? ==>
      && Gather(CountyCodes, fetch).Ok?
      && |r.value| == TotalRows(Gather(CountyCodes, fetch).value.frames)
      && forall j | 0 <= j < |r.value| ::
        r.value[j] == OutputRow(sqrt, Concat(Gather(CountyCodes, fetch).value.frames).rows[j], TractKeys)
  {
    match Gather(CountyCodes, fetch)
    case Err(c) => Err(EmptyPartition(c))
    case Ok(rep) =>
      match Combine(rep)
      case Err(e) => Err(e)
      case Ok(f) => Output(sqrt, f, TractKeys)
  }

  /** The tract run fails for lack of data exactly when the loop survived and kept no frame. */
  lemma NoDataWhenNothingKept(sqrt: real -> real, fetch: Query -> Fetched)
    requires IsSqrt(sqrt)
    ensures TractRun(sqrt, fetch) == Err(NoData) <==>
      Gather(CountyCodes, fetch).Ok? && |Gather(CountyCodes, fetch).value.frames| == 0
  {
    var g := Gather(CountyCodes, fetch);
    if g.Ok? && |g.value.frames| > 0 {
      var o := Output(sqrt, Concat(g.value.frames), TractKeys);
      assert o.Err? ==> o.error.MissingColumn?;
    }
  }

  /**
    The tract run fails for lack of data exactly when no county crashed the
    loop and none had its frame kept, that is, every county was skipped.
   */
  lemma NoDataIff(sqrt: real -> real, fetch: Query -> Fetched)
    requires IsSqrt(sqrt)
    ensures TractRun(sqrt, fetch) == Err(NoData) <==>
      forall i | 0 <= i < |CountyCodes| :: Steps(CountyCodes, fetch)[i].Skipped?
  {
    NoDataWhenNothingKept(sqrt, fetch);
    var steps := Steps(CountyCodes, fetch);
    var g := Gather(CountyCodes, fetch);
    assert g == Fold(steps);
    if forall i | 0 <= i < |CountyCodes| :: steps[i].Skipped? {
      FoldAllSkipped(steps);
    }
    if g.Ok? && |g.value.frames| == 0 {
      assert forall i | 0 <= i < |steps| :: !steps[i].Kept?;
    }
  }

  /**
    A county that answers with a header and no rows still counts as data: the
    run does not fail for lack of data when such a county is kept.
   */
  lemma EmptyPartitionStillCounts(sqrt: real -> real, fetch: Query -> Fetched, i: nat, header: seq<string>)
    requires IsSqrt(sqrt)
    requires i < |CountyCodes|
    ensures fetch(TractQuery(CountyCodes[i])) == Payload([header]) ==> TractRun(sqrt, fetch) != Err(NoData)
  {
    if fetch(TractQuery(CountyCodes[i])) == Payload([header]) {
      var steps := Steps(CountyCodes, fetch);
      assert steps[i] == Attempt(CountyCodes[i], Payload([header]));
      assert steps[i].Kept?;
      NoDataIff(sqrt, fetch);
    }
  }

  /** The combined frame of a successful tract run. */
  lemma CombinedRowRetagged(fetch: Query -> Fetched, j: nat)
    requires Gather(CountyCodes, fetch).Ok?
    requires j < |Concat(Gather(CountyCodes, fetch).value.frames).rows|
    ensures "county" in Concat(Gather(CountyCodes, fetch).value.frames).rows[j]
    ensures Concat(Gather(CountyCodes, fetch).value.frames).rows[j]["county"] in CountyCodes
  {
    var frames := Gather(CountyCodes, fetch).value.frames;
    ConcatRowOrigin(frames, j);
    KeptRowsRetagged(CountyCodes, fetch);
    var i, k :| 0 <= i < |frames| && 0 <= k < |frames[i].rows| && Concat(frames).rows[j] == frames[i].rows[k];
    assert frames[i] in frames;
  }

  /**
    In the tract output the GEOID of row `j` is built from the state, county
    and tract cells of the `j`-th combined row, whose county cell is one of
    the requested county codes whatever the response itself reported; it is
    NaN exactly when one of those cells is missing.
   */
  lemma TractGeoidCounty(sqrt: real -> real, fetch: Query -> Fetched, j: nat)
    requires IsSqrt(sqrt)
    requires TractRun(sqrt, fetch).Ok? && j < |TractRun(sqrt, fetch).value|
    ensures Gather(CountyCodes, fetch).Ok? && j < |Concat(Gather(CountyCodes, fetch).value.frames).rows|
    ensures
      var row := Concat(Gather(CountyCodes, fetch).value.frames).rows[j];
      && "county" in row && row["county"] in CountyCodes
      && (TractRun(sqrt, fetch).value[j][0] == Text(None) <==> "state" !in row || "tract" !in row)
      && ("state" in row && "tract" in row ==>
            TractRun(sqrt, fetch).value[j][0] == Text(Some(TractGeoid(row["state"], row["county"], row["tract"]))))
  {
    var frames := Gather(CountyCodes, fetch).value.frames;
    var f := Concat(frames);
    var row := f.rows[j];
    assert TractRun(sqrt, fetch).value[j] == OutputRow(sqrt, row, TractKeys);
    CombinedRowRetagged(fetch, j);
    if "state" in row && "tract" in row {
      TractRowGeoid(row);
    } else {
      assert GeoidOf(row, TractKeys) == None by {
        if "state" !in row {
          assert TractKeys[0] !in row;
        } else {
          assert TractKeys[2] !in row;
        }
      }
    }
  }

  /** Each county output row's GEOID is the state code followed by the county code of its data line. */
  lemma CountyOutputGeoid(sqrt: real -> real, fetch: Query -> Fetched, i: nat)
    requires IsSqrt(sqrt)
    ensures CountyRun(sqrt, fetch).Ok? && i < |CountyRun(sqrt, fetch).value| ==>
      var data := fetch(CountyQuery()).data;
      var row := RowOf(data[0], data[i + 1]);
      "state" in row && "county" in row ==>
        CountyRun(sqrt, fetch).value[i][0] == Text(Some(CountyGeoid(row["state"], row["county"])))
  {
    if CountyRun(sqrt, fetch).Ok? && i < |CountyRun(sqrt, fetch).value| {
      var data := fetch(CountyQuery()).data;
      var row := RowOf(data[0], data[i + 1]);
      assert CountyRun(sqrt, fetch) == CountyResponse(sqrt, fetch(CountyQuery()));
      assert CountyRun(sqrt, fetch).value[i] == OutputRow(sqrt, row, CountyKeys);
      if "state" in row && "county" in row {
        CountyRowGeoid(row);
      }
    }
  }

  /**
    A row whose male NEET estimate is missing or not a number gets NaN for
    the count and everything computed from it, while the total and its MOE
    are the coerced B14005_001E and B14005_001M cells.
   */
  lemma MaleEstimateNaNIsolated(sqrt: real -> real, row: Row, keys: seq<string>)
    requires IsSqrt(sqrt)
    requires NumericCell(row, Variables()[0]) == Undefined
    ensures OutputRow(sqrt, row, keys)[1] == Number(Undefined)
    ensures OutputRow(sqrt, row, keys)[5] == Number(Undefined)
    ensures OutputRow(sqrt, row, keys)[6] == Number(Undefined)
    ensures OutputRow(sqrt, row, keys)[7] == Number(Undefined)
    ensures OutputRow(sqrt, row, keys)[3] == Number(NumericCell(row, Variables()[2]))
    ensures OutputRow(sqrt, row, keys)[4] == Number(NumericCell(row, Variables()[5]))
  {
    var e := EstimatesOf(row);
    assert e.maleNeet.Undefined?;
    UndefinedEstimateIsolated(sqrt, e, 0.0);
  }
}
