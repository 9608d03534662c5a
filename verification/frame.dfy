/**
  The slice of pandas DataFrame behaviour the scripts rely on. A response is a
  JSON array of string arrays whose first element is the header; each later
  element becomes one row. A row is a map from column name to cell: pandas
  pads a short row with None, which the model writes as an absent key, and an
  absent column (after a concatenation) reads the same way.
 */
module Frame {
  import opened Wrappers

  type Row = map<string, string>

  datatype Frame = Frame(columns: set<string>, rows: seq<Row>)

  /** Why `pd.DataFrame(data[1:], columns=data[0])` did not produce a frame. */
  datatype ParseError =
    | EmptyResponse   // `data[0]` on an empty array: IndexError
    | ShapeMismatch   // the widest row and the header differ in width: ValueError

  /**
    The row built from one data line: the i-th cell goes under the i-th header
    name; header names beyond the end of the line get no cell.
   */
  function RowOf(header: seq<string>, cells: seq<string>): (r: Row)
    ensures forall k :: k in r <==> exists i | 0 <= i < |header| && i < |cells| :: header[i] == k
    ensures forall i | 0 <= i < |header| && i < |cells| && header[i] !in header[..i] ::
      r[header[i]] == cells[i]
  {
    if |header| == 0 || |cells| == 0 then map[]
    else
      var rest := RowOf(header[1..], cells[1..]);
      assert forall i | 1 <= i < |header| && i < |cells| :: header[1..][i - 1] == header[i];
      assert forall i | 1 <= i < |header| && i < |cells| && header[i] !in header[..i] ::
        header[1..][i - 1] !in header[1..][..i - 1] by {
          forall i | 1 <= i < |header| && i < |cells| && header[i] !in header[..i]
            ensures header[1..][i - 1] !in header[1..][..i - 1]
          {
            assert header[1..][..i - 1] == header[..i][1..];
          }
        }
      rest[header[0] := cells[0]]
  }

  /** The width of the widest line; 0 for no lines. */
  function MaxWidth(lines: seq<seq<string>>): (w: nat)
    ensures forall i | 0 <= i < |lines| :: |lines[i]| <= w
    ensures |lines| > 0 ==> exists i | 0 <= i < |lines| :: |lines[i]| == w
    ensures |lines| == 0 ==> w == 0
  {
    if |lines| == 0 then 0
    else
      var rest := MaxWidth(lines[1..]);
      assert forall i | 1 <= i < |lines| :: lines[1..][i - 1] == lines[i];
      if |lines[0]| >= rest then |lines[0]| else rest
  }

  /** `pd.DataFrame(data[1:], columns=data[0])` */
  function ToFrame(data: seq<seq<string>>): (r: Result<Frame, ParseError>)
    ensures r == Err(EmptyResponse) <==> |data| == 0
    ensures r == Err(ShapeMismatch) <==>
      && |data| > 1
      && ((exists i | 1 <= i < |data| :: |data[i]| > |data[0]|) || (forall i | 1 <= i < |data| :: |data[i]| < |data[0]|))
    ensures r.Ok? ==>
      && r.value.columns == set h | h in data[0]
      && |r.value.rows| == |data| - 1
      && forall i | 0 <= i < |r.value.rows| :: r.value.rows[i] == RowOf(data[0], data[i + 1])
  {
    if |data| == 0 then Err(EmptyResponse)
    else if |data| > 1 && MaxWidth(data[1..]) != |data[0]| then
      assert forall i | 1 <= i < |data| :: data[1..][i - 1] == data[i];
      Err(ShapeMismatch)
    else
      assert |data| > 1 ==> forall i | 1 <= i < |data| :: data[1..][i - 1] == data[i];
      Ok(Frame(set h | h in data[0], seq(|data| - 1, i requires 0 <= i < |data| - 1 => RowOf(data[0], data[i + 1]))))
  }

  /** `df[name] = value`: the column is added or overwritten with the same value in every row. */
  function WithColumn(f: Frame, name: string, value: string): (g: Frame)
    ensures g.columns == f.columns + {name}
    ensures |g.rows| == |f.rows|
    ensures forall i | 0 <= i < |g.rows| :: name in g.rows[i] && g.rows[i][name] == value
    ensures forall i, k | 0 <= i < |g.rows| && k != name :: (k in g.rows[i] <==> k in f.rows[i])
    ensures forall i, k | 0 <= i < |g.rows| && k != name && k in f.rows[i] :: g.rows[i][k] == f.rows[i][k]
  {
    Frame(f.columns + {name}, seq(|f.rows|, i requires 0 <= i < |f.rows| => f.rows[i][name := value]))
  }

  /** The number of rows over all frames. */
  function TotalRows(fs: seq<Frame>): nat {
    if |fs| == 0 then 0 else |fs[0].rows| + TotalRows(fs[1..])
  }

  /**
    `pd.concat(fs, ignore_index=True)`: the rows of every frame in order,
    under the union of their columns.
   */
  function Concat(fs: seq<Frame>): (g: Frame)
    ensures |g.rows| == TotalRows(fs)
    ensures forall c :: c in g.columns <==> exists i | 0 <= i < |fs| :: c in fs[i].columns
  {
    if |fs| == 0 then Frame({}, [])
    else
      var rest := Concat(fs[1..]);
      assert forall i | 1 <= i < |fs| :: fs[1..][i - 1] == fs[i];
      Frame(fs[0].columns + rest.columns, fs[0].rows + rest.rows)
  }

  /** Concatenation is a homomorphism: the rows of `a + b` are those of `a` followed by those of `b`. */
  lemma {:induction false} ConcatAppend(a: seq<Frame>, b: seq<Frame>)
    ensures Concat(a + b).rows == Concat(a).rows + Concat(b).rows
    ensures TotalRows(a + b) == TotalRows(a) + TotalRows(b)
  {
    if |a| == 0 {
      assert a + b == b;
    } else {
      assert (a + b)[0] == a[0];
      assert (a + b)[1..] == a[1..] + b;
      ConcatAppend(a[1..], b);
      assert a[0].rows + (Concat(a[1..]).rows + Concat(b).rows) == Concat(a).rows + Concat(b).rows;
    }
  }

  /** A single frame concatenates to its own rows. */
  lemma ConcatSingle(f: Frame)
    ensures Concat([f]).rows == f.rows
  {
    assert [f][1..] == [];
  }

  /** Every row of a concatenation comes from one of the frames, in frame order. */
  lemma {:induction false} ConcatRowOrigin(fs: seq<Frame>, j: nat)
    requires j < |Concat(fs).rows|
    ensures exists i, k | 0 <= i < |fs| && 0 <= k < |fs[i].rows| :: Concat(fs).rows[j] == fs[i].rows[k]
  {
    if j < |fs[0].rows| {
      assert Concat(fs).rows[j] == fs[0].rows[j];
    } else {
      ConcatRowOrigin(fs[1..], j - |fs[0].rows|);
      var i, k :| 0 <= i < |fs[1..]| && 0 <= k < |fs[1..][i].rows| &&
        Concat(fs[1..]).rows[j - |fs[0].rows|] == fs[1..][i].rows[k];
      assert Concat(fs).rows[j] == fs[i + 1].rows[k];
    }
  }

  /** A line with fewer cells than the header lacks the trailing columns. */
  lemma PaddedLineExample()
    ensures ToFrame([["a", "b"], ["1"], ["2", "3"]]) ==
      Ok(Frame({"a", "b"}, [map["a" := "1"], map["a" := "2", "b" := "3"]]))
  {
    var h := ["a", "b"];
    var d := [h, ["1"], ["2", "3"]];
    assert |d[2]| == |d[0]|;
    var r := ToFrame(d);
    assert r.Ok?;
    assert RowOf(h, ["1"]) == map["a" := "1"];
    assert RowOf(h, ["2", "3"]) == map["a" := "2", "b" := "3"];
    assert (set x | x in h) == {"a", "b"};
    assert r.value.rows == [RowOf(h, ["1"]), RowOf(h, ["2", "3"])];
  }

  /** A line wider than the header is a shape error; a header alone is an empty frame. */
  lemma ShapeExamples()
    ensures ToFrame([["a", "b"], ["1", "2", "3"]]) == Err(ShapeMismatch)
    ensures ToFrame([["a", "b"]]) == Ok(Frame({"a", "b"}, []))
  {
    var h := ["a", "b"];
    var d := [h, ["1", "2", "3"]];
    assert |d[1]| > |d[0]|;
    assert (set x | x in h) == {"a", "b"};
  }
}
