/**
  The request descriptor sent to the ACS 5-year endpoint: the comma-joined list
  of B14005 variables (`get`), the geography asked for (`for`) and the scope
  it is asked within (`in`). The API key parameter is not modelled.
 */
module Query {
  import opened Coerce

  const TablePrefix: string := "B14005"
  const StateFips: string := "24"  // Maryland

  /** "B14005_" followed by a three-digit line number and E (estimate) or M (margin of error). */
  predicate IsVariableId(s: string) {
    && |s| == 11
    && s[..7] == TablePrefix + "_"
    && AllDigits(s[7..10])
    && (s[10] == 'E' || s[10] == 'M')
  }

  function VariableId(line: string, kind: char): string {
    TablePrefix + "_" + line + [kind]
  }

  /**
    The six requested variables in listed order: the male and female NEET
    estimates, the total, then the three matching margins of error.
   */
  function Variables(): (vs: seq<string>)
    ensures |vs| == 6
    ensures forall i | 0 <= i < |vs| :: IsVariableId(vs[i])
  {
    VariableIdWellFormed("008", 'E');
    VariableIdWellFormed("015", 'E');
    VariableIdWellFormed("001", 'E');
    VariableIdWellFormed("008", 'M');
    VariableIdWellFormed("015", 'M');
    VariableIdWellFormed("001", 'M');
    [ VariableId("008", 'E'), VariableId("015", 'E'), VariableId("001", 'E'),
      VariableId("008", 'M'), VariableId("015", 'M'), VariableId("001", 'M') ]
  }

  lemma VariableIdWellFormed(line: string, kind: char)
    requires IsCode3(line) && (kind == 'E' || kind == 'M')
    ensures IsVariableId(VariableId(line, kind))
    ensures VariableId(line, kind)[7..10] == line && VariableId(line, kind)[10] == kind
  {
    var v := VariableId(line, kind);
    assert v[..7] == TablePrefix + "_";
    assert v[7..10] == line;
  }

  lemma VariableIdHasNoComma(s: string)
    requires IsVariableId(s)
    ensures ',' !in s
  {
    forall k | 0 <= k < |s|
      ensures s[k] != ','
    {
      if k < 7 {
        assert s[k] == s[..7][k];
      } else if k < 10 {
        assert s[k] == s[7..10][k - 7];
      }
    }
  }

  predicate IsCode3(s: string) {
    |s| == 3 && AllDigits(s)
  }

  /**
    Each variable is a well-formed B14005 identifier without a comma, no two
    are the same, and the last three are the margins of error of the first
    three, line for line.
   */
  lemma VariablesWellFormed()
    ensures forall i | 0 <= i < |Variables()| :: IsVariableId(Variables()[i]) && ',' !in Variables()[i]
    ensures forall i, j | 0 <= i < j < |Variables()| :: Variables()[i] != Variables()[j]
    ensures forall i | 0 <= i < |Variables()| :: Variables()[i][10] == (if i < 3 then 'E' else 'M')
    ensures Variables()[0][7..10] == Variables()[3][7..10] == "008"
    ensures Variables()[1][7..10] == Variables()[4][7..10] == "015"
    ensures Variables()[2][7..10] == Variables()[5][7..10] == "001"
  {
    var vs := Variables();
    var lines := ["008", "015", "001", "008", "015", "001"];
    var kinds := ['E', 'E', 'E', 'M', 'M', 'M'];
    forall i | 0 <= i < 6
      ensures IsVariableId(vs[i]) && vs[i][7..10] == lines[i] && vs[i][10] == kinds[i]
    {
      assert vs[i] == VariableId(lines[i], kinds[i]);
      VariableIdWellFormed(lines[i], kinds[i]);
    }
    forall i | 0 <= i < 6
      ensures ',' !in vs[i]
    {
      VariableIdHasNoComma(vs[i]);
    }
    forall i, j | 0 <= i < j < 6
      ensures vs[i] != vs[j]
    {
      assert lines[i] != lines[j] || kinds[i] != kinds[j];
    }
  }

  /** `sep.join(parts)`; `SplitJoin` and `JoinSplit` show it is undone by `Split`. */
  function Join(parts: seq<string>, sep: char): (s: string)
    ensures |parts| == 0 ==> s == ""
    ensures |parts| == 1 ==> s == parts[0]
  {
    if |parts| == 0 then ""
    else if |parts| == 1 then parts[0]
    else parts[0] + [sep] + Join(parts[1..], sep)
  }

  /** `s.split(sep)`: the pieces between occurrences of `sep`; never empty. */
  function Split(s: string, sep: char): (parts: seq<string>)
    ensures |parts| > 0
    ensures forall i | 0 <= i < |parts| :: sep !in parts[i]
    decreases |s|
  {
    var k := FirstIndex(s, sep);
    if k == |s| then [s] else [s[..k]] + Split(s[k + 1..], sep)
  }

  /** Splitting a join recovers the parts when none of them contains the separator. */
  lemma {:induction false} SplitJoin(parts: seq<string>, sep: char)
    requires |parts| > 0
    requires forall i | 0 <= i < |parts| :: sep !in parts[i]
    ensures Split(Join(parts, sep), sep) == parts
  {
    if |parts| == 1 {
      assert FirstIndex(parts[0], sep) == |parts[0]|;
    } else {
      var s := Join(parts, sep);
      var p := parts[0];
      assert s == p + [sep] + Join(parts[1..], sep);
      var k := FirstIndex(s, sep);
      FirstIndexPast(p, sep, Join(parts[1..], sep));
      assert k == |p|;
      assert s[..k] == p;
      assert s[k + 1..] == Join(parts[1..], sep);
      SplitJoin(parts[1..], sep);
    }
  }

  /** In `p + [sep] + rest` with `sep` not in `p`, the first `sep` sits right after `p`. */
  lemma FirstIndexPast(p: string, sep: char, rest: string)
    requires sep !in p
    ensures FirstIndex(p + [sep] + rest, sep) == |p|
  {
    var s := p + [sep] + rest;
    assert s[|p|] == sep;
    forall j | 0 <= j < |p|
      ensures s[j] != sep
    {
      assert s[j] == p[j];
    }
  }

  /** Joining a split gives the original string back. */
  lemma {:induction false} JoinSplit(s: string, sep: char)
    ensures Join(Split(s, sep), sep) == s
    decreases |s|
  {
    var k := FirstIndex(s, sep);
    if k < |s| {
      JoinSplit(s[k + 1..], sep);
      assert s == s[..k] + [sep] + s[k + 1..];
    }
  }

  /** The request parameters other than the key. */
  datatype Query = Query(get: string, geography: string, scope: string)

  /** `{"get": ..., "for": "county:*", "in": "state:24"}` */
  function CountyQuery(): (q: Query)
    ensures Split(q.get, ',') == Variables()
    ensures q.geography == "county:*"
    ensures q.scope == "state:" + StateFips
  {
    VariablesWellFormed();
    SplitJoin(Variables(), ',');
    Query(Join(Variables(), ','), "county:*", "state:" + StateFips)
  }

  /** `{"get": ..., "for": "tract:*", "in": "state:24 county:<code>"}` */
  function TractQuery(county: string): (q: Query)
    ensures Split(q.get, ',') == Variables()
    ensures q.geography == "tract:*"
    ensures |q.scope| == 16 + |county|
    ensures q.scope[..16] == "state:" + StateFips + " county:" && q.scope[16..] == county
  {
    VariablesWellFormed();
    SplitJoin(Variables(), ',');
    Query(Join(Variables(), ','), "tract:*", "state:" + StateFips + " county:" + county)
  }

  /** Different counties are asked for with different queries, and all ask for the same variables. */
  lemma TractQueryInjective(c1: string, c2: string)
    ensures TractQuery(c1).get == TractQuery(c2).get == CountyQuery().get
    ensures TractQuery(c1) == TractQuery(c2) <==> c1 == c2
  {
    if TractQuery(c1) == TractQuery(c2) {
      assert c1 == TractQuery(c1).scope[16..];
    }
  }
}
