/**
  GEOIDs: the FIPS components of a unit concatenated with no separator and no
  re-padding. The county run builds state + county (5 characters for
  well-formed codes), the tract run state + county + tract (11 characters).
 */
module GeoId {
  import opened Coerce

  const StateWidth: nat := 2
  const CountyWidth: nat := 3
  const TractWidth: nat := 6

  /** A FIPS component: exactly `width` decimal digits, leading zeros included. */
  predicate IsCode(s: string, width: nat) {
    |s| == width && AllDigits(s)
  }

  /** `df["state"] + df["county"]` for one row. */
  function CountyGeoid(state: string, county: string): (g: string)
    ensures |g| == |state| + |county|
    ensures g[..|state|] == state && g[|state|..] == county
  {
    state + county
  }

  /** `df["state"] + df["county"] + df["tract"]` for one row. */
  function TractGeoid(state: string, county: string, tract: string): (g: string)
    ensures |g| == |state| + |county| + |tract|
    ensures g[..|state| + |county|] == CountyGeoid(state, county)
    ensures g[|state| + |county|..] == tract
  {
    CountyGeoid(state, county) + tract
  }

  /** Cuts a county GEOID back into its state and county codes. */
  function SplitCountyGeoid(g: string): (string, string)
    requires |g| == StateWidth + CountyWidth
  {
    (g[..StateWidth], g[StateWidth..])
  }

  /** Cuts a tract GEOID back into its state, county and tract codes. */
  function SplitTractGeoid(g: string): (string, string, string)
    requires |g| == StateWidth + CountyWidth + TractWidth
  {
    (g[..StateWidth], g[StateWidth..StateWidth + CountyWidth], g[StateWidth + CountyWidth..])
  }

  lemma AllDigitsAppend(a: string, b: string)
    requires AllDigits(a) && AllDigits(b)
    ensures AllDigits(a + b)
  {
    forall i | 0 <= i < |a + b|
      ensures IsDigit((a + b)[i])
    {
      if i < |a| {
        assert (a + b)[i] == a[i];
      } else {
        assert (a + b)[i] == b[i - |a|];
      }
    }
  }

  /** Well-formed codes give a 5-digit county GEOID that splits back into them. */
  lemma CountyGeoidShape(state: string, county: string)
    requires IsCode(state, StateWidth) && IsCode(county, CountyWidth)
    ensures IsCode(CountyGeoid(state, county), StateWidth + CountyWidth)
    ensures SplitCountyGeoid(CountyGeoid(state, county)) == (state, county)
  {
    AllDigitsAppend(state, county);
  }

  /**
    Well-formed codes give an 11-digit tract GEOID whose first five characters
    are the county GEOID and which splits back into the three codes.
   */
  lemma TractGeoidShape(state: string, county: string, tract: string)
    requires IsCode(state, StateWidth) && IsCode(county, CountyWidth) && IsCode(tract, TractWidth)
    ensures IsCode(TractGeoid(state, county, tract), StateWidth + CountyWidth + TractWidth)
    ensures TractGeoid(state, county, tract)[..StateWidth + CountyWidth] == CountyGeoid(state, county)
    ensures SplitTractGeoid(TractGeoid(state, county, tract)) == (state, county, tract)
  {
    var g := TractGeoid(state, county, tract);
    AllDigitsAppend(state, county);
    AllDigitsAppend(state + county, tract);
    assert g[..StateWidth] == g[..StateWidth + CountyWidth][..StateWidth] == state;
    assert g[StateWidth..StateWidth + CountyWidth] == g[..StateWidth + CountyWidth][StateWidth..] == county;
  }

  /** Every 5-digit string is the county GEOID of its own split. */
  lemma CountyGeoidSplitBack(g: string)
    requires IsCode(g, StateWidth + CountyWidth)
    ensures IsCode(SplitCountyGeoid(g).0, StateWidth) && IsCode(SplitCountyGeoid(g).1, CountyWidth)
    ensures CountyGeoid(SplitCountyGeoid(g).0, SplitCountyGeoid(g).1) == g
  {
    assert g[..StateWidth] + g[StateWidth..] == g;
  }

  /** Every 11-digit string is the tract GEOID of its own split. */
  lemma TractGeoidSplitBack(g: string)
    requires IsCode(g, StateWidth + CountyWidth + TractWidth)
    ensures
      var (s, c, t) := SplitTractGeoid(g);
      IsCode(s, StateWidth) && IsCode(c, CountyWidth) && IsCode(t, TractWidth) && TractGeoid(s, c, t) == g
  {
    var (s, c, t) := SplitTractGeoid(g);
    assert s + c + t == g;
  }

  /** Distinct well-formed code pairs never share a county GEOID. */
  lemma CountyGeoidInjective(s1: string, c1: string, s2: string, c2: string)
    requires IsCode(s1, StateWidth) && IsCode(c1, CountyWidth)
    requires IsCode(s2, StateWidth) && IsCode(c2, CountyWidth)
    requires CountyGeoid(s1, c1) == CountyGeoid(s2, c2)
    ensures s1 == s2 && c1 == c2
  {
    CountyGeoidShape(s1, c1);
    CountyGeoidShape(s2, c2);
  }

  /** Distinct well-formed code triples never share a tract GEOID. */
  lemma TractGeoidInjective(s1: string, c1: string, t1: string, s2: string, c2: string, t2: string)
    requires IsCode(s1, StateWidth) && IsCode(c1, CountyWidth) && IsCode(t1, TractWidth)
    requires IsCode(s2, StateWidth) && IsCode(c2, CountyWidth) && IsCode(t2, TractWidth)
    requires TractGeoid(s1, c1, t1) == TractGeoid(s2, c2, t2)
    ensures s1 == s2 && c1 == c2 && t1 == t2
  {
    TractGeoidShape(s1, c1, t1);
    TractGeoidShape(s2, c2, t2);
  }

  /** Anne Arundel County: leading zeros are kept, so "24" and "003" give "24003". */
  lemma CountyGeoidExample()
    ensures CountyGeoid("24", "003") == "24003"
    ensures TractGeoid("24", "003", "701101") == "24003701101"
  {
  }
}
