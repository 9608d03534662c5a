# NEET indicator for Maryland youth, modelled in Dafny

The modelled system is a pair of scripts. They compute, for Maryland, the
share of 16–19 year olds who are neither enrolled in school nor in the labour
force (NEET). The figures come from table B14005 of the ACS 5-year estimates.
The county script asks the Census API once for every county of the state. The
tract script asks once per county, for that county's tracts.

Both scripts:

- coerce six variables to numbers;
- derive the NEET count, the total youth, the percentage, their margins of
  error (MOE) and the coefficient of variation (CV);
- build a GEOID from the FIPS codes;
- project eight output columns.

This project models that logic over exact reals. The modules are:

- `Num` holds values that may be NaN, written `Undefined`. It also holds the
  square-root relation.
- `Coerce` models `pd.to_numeric(errors="coerce")` on one cell.
- `Indicator` holds the derivation shared by both scripts. It follows the ACS
  approximations for a sum and for a ratio of two estimates.
- `GeoId` builds county and tract GEOIDs.
- `Query` holds the variable list and the request parameters.
- `Frame` holds the part of pandas the scripts rely on: building a frame from
  the JSON table, overwriting a column, and `concat`.
- `Partition` holds the tract script's per-county loop: county re-tagging,
  skipping of failed counties, and the crash on an empty array.
- `Pipeline` holds both runs end to end, including the output projection.

Dafny has no square root. Every derivation therefore takes a function
`sqrt: real -> real` together with the requirement `IsSqrt(sqrt)`: for every
`a >= 0`, `sqrt(a) >= 0` and `sqrt(a) * sqrt(a) == a`. `Num.RootUnique` shows
that only one such function exists on non-negative reals, so the choice of
function does not change the result.

Infinities and NaN both become `Undefined`. The scripts never guard a zero
denominator; pandas then yields inf or NaN and the run carries on. The model
gives `Undefined` in those cases too.

The network is a parameter. `fetch: Query -> Fetched` answers each request.
Its answer is either a transport failure or the decoded JSON table.

Three behaviours of the scripts are easy to misread:

- **When the tract run fails for lack of data.** It fails only when no
  county's frame was kept (`if not all_data`), not when the kept frames hold
  no rows. A county that answers with a header and no rows therefore keeps
  the run alive (`Pipeline.EmptyPartitionStillCounts`).
- **Empty answers in the tract run.** A county that answers with an empty
  JSON array makes `data[0]` raise IndexError. The loop catches only
  `RequestException` and `ValueError`, so the whole run stops at that county
  (`Partition.GatherCrash`).
- **A worked row.** Take E008 = 40, E015 = 35, E001 = 500, M008 = 10,
  M015 = 8 and M001 = 20. The formulas give a count of 75 and a percentage
  of 15. They give a percent MOE of 15·√(173/5625) ≈ 2.631 and a CV of
  √(173/5625) ≈ 0.1754 (`Indicator.WorkedExample`).

## Model

| member | source | states |
|---|---|---|
| Num.Add | src/fetch_disconnected_youth_county.py:80 | A sum is NaN exactly when either operand is NaN. |
| Num.Mul | src/fetch_disconnected_youth_county.py:86 | A product is NaN exactly when either operand is NaN. |
| Num.Div | src/fetch_disconnected_youth_county.py:86 | A quotient is a number exactly when both operands are numbers and the divisor is non-zero. A zero divisor gives inf or NaN, written `Undefined`. |
| Num.DivMulInverse | src/fetch_disconnected_youth_county.py:103 | A defined quotient times the divisor gives back the dividend. A defined product divided by its non-zero second factor gives back the first. |
| Num.Root | src/fetch_disconnected_youth_county.py:89-91 | `x ** 0.5` is defined exactly when its argument is a defined non-negative number, and then it is the non-negative number whose square is that argument. |
| Num.RootUnique | src/fetch_disconnected_youth_county.py:89-91 | Two non-negative reals with the same square are equal, so every admissible square root gives the same results. |
| Num.RootOfScaled | src/fetch_disconnected_youth_county.py:97-100 | √(k²·a) = k·√a for non-negative k and a. |
| Coerce.ToNumeric | src/fetch_disconnected_youth_county.py:72-73 | A cell coerces to a number only if it is made of sign, digit and point characters and holds at least one digit. Otherwise it becomes NaN instead of raising. |
| Coerce.CoerceInteger | src/fetch_disconnected_youth_county.py:72-73 | Every integer written in decimal, negative ones included, coerces back to exactly itself. |
| Coerce.CoerceNonNumeric | src/fetch_disconnected_youth_county.py:72-73 | A cell with any character that cannot appear in a numeral coerces to NaN. |
| Coerce.CoerceExamples | src/fetch_disconnected_youth_tract.py:95-96 | "12.5" coerces to 12.5. The empty cell and "N/A" coerce to NaN. |
| Coerce.CoerceAnnotationCode | src/fetch_disconnected_youth_tract.py:95-96 | The Census placeholder "-666666666" is a number, so it is kept as a value and not turned into NaN. |
| Indicator.PercentOf | src/fetch_disconnected_youth_county.py:86 | The percentage is defined exactly when count and total are defined and the total is non-zero. It is then count/total·100, and it is zero exactly when the count is zero. |
| Indicator.CountMoeOf | src/fetch_disconnected_youth_county.py:89-91 | The count MOE is defined exactly when both MOEs are. It is non-negative and its square is M008² + M015². |
| Indicator.PercentMoeOf | src/fetch_disconnected_youth_county.py:97-100 | The percent MOE is defined exactly when all five inputs are defined and count and total are non-zero. It is then percent·√((cmoe/count)² + (tmoe/total)²). |
| Indicator.Derive | src/fetch_disconnected_youth_county.py:80-103 | The shared derivation, also at src/fetch_disconnected_youth_tract.py:103-126. The total and its MOE pass through unchanged. The count is E008 + E015. The count MOE satisfies the quadrature relation. The percent MOE, whenever defined and whatever the signs of the inputs, is percent·√((cmoe/count)² + (tmoe/total)²). The CV is the percent MOE divided by the percentage, NaN on a zero percentage. Each derived column is defined exactly when every input it depends on is defined and its denominators are non-zero. |
| Indicator.PercentMoeIsRatioMoe | src/fetch_disconnected_youth_county.py:97-100 | For count > 0 and total > 0, the percent MOE equals the ACS ratio formula (100/total)·√(cmoe² + (count/total)²·tmoe²). |
| Indicator.CvIsRelativeError | src/fetch_disconnected_youth_county.py:97-103 | Whenever the CV is defined, it is √((cmoe/count)² + (tmoe/total)²), with no factor of 100. A defined CV also implies that all six inputs are defined and count and total are non-zero. |
| Indicator.CountMoeOfZeros | src/fetch_disconnected_youth_county.py:89-91 | Both MOEs zero gives a zero count MOE. |
| Indicator.PercentBounds | src/fetch_disconnected_youth_county.py:86 | A count between 0 and a positive total gives a percentage between 0 and 100. |
| Indicator.UndefinedEstimateIsolated | src/fetch_disconnected_youth_tract.py:103-126 | A NaN male estimate makes the count, the percentage, the percent MOE and the CV NaN. The count MOE, the total and the total MOE are the same as with a numeric value in its place. |
| Indicator.UndefinedMoeIsolated | src/fetch_disconnected_youth_tract.py:112-126 | A NaN male MOE makes the count MOE, the percent MOE and the CV NaN. The count, the percentage, the total and the total MOE are unaffected. |
| Indicator.ZeroTotalIsUndefined | src/fetch_disconnected_youth_county.py:86-103 | A zero total gives NaN for the percentage, its MOE and the CV, and raises nothing. |
| Indicator.WorkedExample | src/fetch_disconnected_youth_county.py:80-103 | The inputs 40, 35, 500, 10, 8, 20 give count 75, percentage 15 and a count MOE whose square is 164. The CV lies in (0.1753, 0.1754) and the percent MOE in (2.6295, 2.631). |
| GeoId.CountyGeoid | src/fetch_disconnected_youth_county.py:106 | The county GEOID is the state code immediately followed by the county code. |
| GeoId.TractGeoid | src/fetch_disconnected_youth_tract.py:129 | The tract GEOID is the county GEOID immediately followed by the tract code. |
| GeoId.CountyGeoidShape | src/fetch_disconnected_youth_county.py:106 | Two-digit and three-digit codes give a five-digit GEOID that splits back into them. |
| GeoId.TractGeoidShape | src/fetch_disconnected_youth_tract.py:129 | 2-, 3- and 6-digit codes give an 11-digit GEOID. Its first five characters are the county GEOID, and it splits back into the three codes. |
| GeoId.CountyGeoidSplitBack | src/fetch_disconnected_youth_county.py:106 | Every five-digit string is the county GEOID of its own two parts. |
| GeoId.TractGeoidSplitBack | src/fetch_disconnected_youth_tract.py:129 | Every 11-digit string is the tract GEOID of its own three parts. |
| GeoId.CountyGeoidInjective | src/fetch_disconnected_youth_county.py:106 | Different well-formed code pairs never share a GEOID. |
| GeoId.TractGeoidInjective | src/fetch_disconnected_youth_tract.py:129 | Different well-formed code triples never share a GEOID. |
| GeoId.CountyGeoidExample | src/fetch_disconnected_youth_county.py:106 | "24" and "003" give "24003", with the leading zeros kept. |
| Query.Variables | src/fetch_disconnected_youth_county.py:41-48 | Exactly six identifiers, each a well-formed B14005 identifier. `Query.VariablesWellFormed` fixes which line and kind each one is. |
| Query.VariableIdWellFormed | src/fetch_disconnected_youth_county.py:41-48 | `f"{TABLE_PREFIX}_{line}{kind}"` is a well-formed B14005 identifier that carries its line and kind. |
| Query.VariableIdHasNoComma | src/fetch_disconnected_youth_county.py:56 | A well-formed identifier has no comma, so it survives the comma join. |
| Query.VariablesWellFormed | src/fetch_disconnected_youth_county.py:41-48 | There are six distinct identifiers, each "B14005_" + three digits + E or M. The first three are estimates for lines 008, 015 and 001, and the last three are the MOEs of the same lines. |
| Query.Join | src/fetch_disconnected_youth_county.py:56 | No parts join to the empty string and one part joins to itself. `Query.SplitJoin` and `Query.JoinSplit` show that `Split` undoes it. |
| Query.Split | src/fetch_disconnected_youth_county.py:56 | `str.split` always yields at least one piece, and no piece contains the separator. |
| Query.SplitJoin | src/fetch_disconnected_youth_county.py:56 | Splitting a join recovers the parts when none of them contains the separator. |
| Query.JoinSplit | src/fetch_disconnected_youth_county.py:56 | Joining a split gives the original string back. |
| Query.CountyQuery | src/fetch_disconnected_youth_county.py:55-60 | `get` splits on "," into exactly the six variables in listed order. The geography is "county:*" and the scope is "state:24". |
| Query.TractQuery | src/fetch_disconnected_youth_tract.py:67-72 | `get` splits into the six variables. The geography is "tract:*" and the scope is "state:24 county:" followed by exactly the county code. |
| Query.TractQueryInjective | src/fetch_disconnected_youth_tract.py:66-72 | Every county is asked for the same variables as the county run, and different counties get different queries. |
| Frame.RowOf | src/fetch_disconnected_youth_county.py:69 | A row has a cell exactly for the header names whose position the data line reaches, and each such cell is the line's cell at that position. |
| Frame.MaxWidth | src/fetch_disconnected_youth_county.py:69 | The widest data line bounds every line, and some line reaches it. |
| Frame.ToFrame | src/fetch_disconnected_youth_county.py:69 | An empty array is an IndexError. With data lines present, it is a ValueError exactly when some line is wider than the header or every line is narrower. Otherwise there is one row per line after the header, in order, and the columns are the header names. |
| Frame.WithColumn | src/fetch_disconnected_youth_tract.py:79 | Assigning a scalar column puts that value in every row. Every other cell is untouched and the row count is unchanged. |
| Frame.Concat | src/fetch_disconnected_youth_tract.py:92 | The concatenation has as many rows as all frames together, and its columns are the union of theirs. |
| Frame.ConcatAppend | src/fetch_disconnected_youth_tract.py:92 | Concatenating a + b gives the rows of a followed by those of b, and the row counts add up. |
| Frame.ConcatSingle | src/fetch_disconnected_youth_tract.py:92 | A single frame concatenates to its own rows. |
| Frame.ConcatRowOrigin | src/fetch_disconnected_youth_tract.py:92 | Every row of a concatenation is a row of one of the frames. |
| Frame.PaddedLineExample | src/fetch_disconnected_youth_county.py:69 | A line shorter than the header lacks the trailing cells. |
| Frame.ShapeExamples | src/fetch_disconnected_youth_county.py:69 | A line wider than the header is a ValueError, and a header alone gives an empty frame. |
| Partition.CountyCodesWellFormed | src/fetch_disconnected_youth_tract.py:54-58 | There are 24 three-digit codes in strictly increasing order, so they are pairwise distinct. |
| Partition.Attempt | src/fetch_disconnected_youth_tract.py:74-84 | One county's iteration. An empty array crashes the run. A transport error or an ill-shaped table is skipped and reported under the county's code. Otherwise the kept frame is the parsed frame with its `county` column overwritten by the code asked for: every row has that code under `county`, and every other cell is the response's. |
| Partition.Fold | src/fetch_disconnected_youth_tract.py:63-84 | The loop survives exactly when no step crashes, and otherwise stops at the first crash. Kept frames and failures together number the steps. Every kept frame and every failure is collected, and nothing else is. |
| Partition.FoldAppend | src/fetch_disconnected_youth_tract.py:66-84 | The loop is a fold in listed order: running over a + b is running over a and then b, with a's frames and failures first. |
| Partition.FoldOne | src/fetch_disconnected_youth_tract.py:74-84 | A single step contributes its frame, its failure, or its crash. |
| Partition.FoldAllSkipped | src/fetch_disconnected_youth_tract.py:81-84 | Steps that are all skips give no frames and their failures in order. |
| Partition.Steps | src/fetch_disconnected_youth_tract.py:66-84 | There is one step per county code; which step each county gets is stated by `Partition.StepsOne`, `Partition.GatherKeepsParsed`, `Partition.GatherReportsRequestFailures`, `Partition.GatherReportsUnparsable` and `Partition.GatherCrash`. |
| Partition.StepsOne | src/fetch_disconnected_youth_tract.py:66-84 | The steps for a single county are exactly that county's attempt on the answer to its own tract query. |
| Partition.StepsAppend | src/fetch_disconnected_youth_tract.py:66 | The steps for a + b are the steps for a followed by those for b. |
| Partition.Gather | src/fetch_disconnected_youth_tract.py:63-84 | A loop that survives keeps as many frames and reports as many failures as there are counties in all. |
| Partition.GatherOne | src/fetch_disconnected_youth_tract.py:74-84 | Visiting a single county is folding its one attempt on the answer to its own tract query. |
| Partition.GatherKeepsParsed | src/fetch_disconnected_youth_tract.py:74-80 | Whenever the loop survives, every county whose answer parses has that parsed frame, with `county` overwritten by its own code, among the kept frames. |
| Partition.GatherCrash | src/fetch_disconnected_youth_tract.py:74-84 | The loop survives exactly when no county answers with an empty array. Otherwise the run stops at the first county that does. |
| Partition.GatherReportsRequestFailures | src/fetch_disconnected_youth_tract.py:81-82 | A county whose request fails is reported as a request failure under its own code. |
| Partition.GatherReportsUnparsable | src/fetch_disconnected_youth_tract.py:83-84 | A county whose table has the wrong width is reported as unparsable under its own code. |
| Partition.GatherReportsOnlyCodes | src/fetch_disconnected_youth_tract.py:81-84 | Only counties that were asked for are reported. |
| Partition.KeptRowsRetagged | src/fetch_disconnected_youth_tract.py:78-80 | Every row of every kept frame carries one of the requested codes under `county`, whatever the response said. |
| Partition.GatherAppend | src/fetch_disconnected_youth_tract.py:66 | Visiting a + b is visiting a and then b. |
| Partition.AllTransportErrors | src/fetch_disconnected_youth_tract.py:74-84 | When every request fails, no frame is kept and every county is reported as a request failure, in listed order. |
| Pipeline.NumericCell | src/fetch_disconnected_youth_county.py:72-73 | A variable whose cell is missing from the row reads as NaN, and a present cell is coerced with `ToNumeric`; `Pipeline.PaddedCellIsNaN`, `Pipeline.ReachedCellIsCoerced` and `Pipeline.IntegerCellValue` relate this to the data line and to integer cells. |
| Pipeline.PaddedCellIsNaN | src/fetch_disconnected_youth_county.py:69-73 | A variable whose header position a short data line does not reach is padded with None and so reads as NaN. |
| Pipeline.ReachedCellIsCoerced | src/fetch_disconnected_youth_county.py:69-73 | A variable whose header position the data line reaches reads as that line's cell at the position, coerced. |
| Pipeline.IntegerCellValue | src/fetch_disconnected_youth_county.py:72-73 | A cell holding a decimal integer reads as exactly that integer. |
| Pipeline.EstimatesOf | src/fetch_disconnected_youth_county.py:72-97 | The six inputs of the derivation are the coerced cells named B14005_008E, B14005_015E, B14005_001E, B14005_008M, B14005_015M and B14005_001M, each in its own role. |
| Pipeline.GeoidOf | src/fetch_disconnected_youth_tract.py:129 | A row's GEOID is NaN exactly when one of its geography cells is missing. |
| Pipeline.CountyRowGeoid | src/fetch_disconnected_youth_county.py:106 | A county row's GEOID is its state cell followed by its county cell. |
| Pipeline.TractRowGeoid | src/fetch_disconnected_youth_tract.py:129 | A tract row's GEOID is its state, county and tract cells in that order. |
| Pipeline.Project | src/fetch_disconnected_youth_county.py:111-116 | An output row has exactly eight cells, and the i-th one is the column named by the i-th entry of the output column list. |
| Pipeline.FirstMissing | src/fetch_disconnected_youth_tract.py:95-96 | Finds the first name, in lookup order, that is not a column, and only when one exists. |
| Pipeline.OutputRow | src/fetch_disconnected_youth_county.py:80-116 | One output row has eight cells. The GEOID comes first. The count is the coerced E008 plus E015, and the count MOE is the quadrature of the coerced M008 and M015. Total youth and its MOE are the coerced E001 and M001 cells. The percentage is count over total times 100. The percent MOE is the ratio formula over the percentage, count MOE, count, total MOE and total cells. The CV is the percent MOE divided by the percentage. |
| Pipeline.Output | src/fetch_disconnected_youth_county.py:72-116 | A frame lacking a variable or geography column raises KeyError. The error names the first missing name in lookup order: the six variables in order, then the geography columns. Otherwise there is one output row per frame row, in order. |
| Pipeline.CountyResponse | src/fetch_disconnected_youth_county.py:62-116 | A transport failure, an empty array and an ill-shaped table each end the run with their own error. A well-shaped table goes through the output pass over the parsed frame, so a missing column is a KeyError. On success there is one output row per data line after the header, in order. |
| Pipeline.CountyRun | src/fetch_disconnected_youth_county.py:55-116 | The county run succeeds exactly when the answer to the county query is a well-shaped table holding all six variables and the state and county columns, and then output row i is computed from data line i + 1 under the header line. |
| Pipeline.CountyResponseSucceeds | src/fetch_disconnected_youth_county.py:62-116 | An answer gets through exactly when it is decoded JSON, parses into a frame, and that frame has every variable and geography column. |
| Pipeline.Combine | src/fetch_disconnected_youth_tract.py:89-92 | The run fails for lack of data exactly when no frame was kept. Otherwise the combined frame is the concatenation of the kept frames, with the summed row count. |
| Pipeline.TractRun | src/fetch_disconnected_youth_tract.py:63-139 | An empty array from a county ends the run with that county. Otherwise the run fails for lack of data when nothing was kept. Otherwise it is the output pass over the concatenation of the kept frames. Output row j is computed from combined row j. |
| Pipeline.NoDataWhenNothingKept | src/fetch_disconnected_youth_tract.py:89-90 | The run fails for lack of data exactly when the loop survived and kept no frame. A KeyError or a crash is never reported as lack of data. |
| Pipeline.NoDataIff | src/fetch_disconnected_youth_tract.py:89-90 | The run fails for lack of data exactly when every county was skipped. |
| Pipeline.EmptyPartitionStillCounts | src/fetch_disconnected_youth_tract.py:89-90 | A county answering with a header and no rows keeps the run from failing for lack of data. |
| Pipeline.CombinedRowRetagged | src/fetch_disconnected_youth_tract.py:79-92 | Every row of the combined frame carries one of the requested county codes. |
| Pipeline.TractGeoidCounty | src/fetch_disconnected_youth_tract.py:79-129 | Output row j's GEOID is built from the state, county and tract cells of combined row j, and that row's county cell is one of the requested codes. The GEOID is NaN exactly when the state or tract cell is missing. |
| Pipeline.CountyOutputGeoid | src/fetch_disconnected_youth_county.py:106 | Each county output row's GEOID is its data line's state code followed by its county code, for the answer to the county query. |
| Pipeline.MaleEstimateNaNIsolated | src/fetch_disconnected_youth_tract.py:95-126 | A missing or non-numeric E008 cell gives NaN count, percentage, percent MOE and CV. Total youth and its MOE are still the coerced E001 and M001 cells. |

## Left out

- Loading the API key from the environment, and the startup error when it is absent. This is environment I/O, and the key is not part of the query the model builds.
- `requests.get`, `raise_for_status` and `response.json()`. A request's outcome is the parameter `fetch`. JSON decoding failures count as transport failures, as they do for `requests`, whose `JSONDecodeError` is a `RequestException`.
- JSON values other than an array of string arrays, such as null cells or an object at the top level, are not modelled.
- Creating the output directory, writing the CSV, and the console diagnostics. Failures are reported as values instead of printed.
- The per-request network wait and the order of side effects before a crash. A crash in the tract loop is reported as the county at which it happened.
- IEEE-754 behaviour: rounding, the difference between inf and NaN, and signed zeros. The model computes over exact reals, and every inf or NaN is `Undefined`.
- 64-bit integer wrap-around. `pd.to_numeric` gives an all-integer column the int64 dtype, so `E008 + E015` and `M ** 2` are int64 operations. The square wraps once an MOE exceeds about 3.04e9, and the sum near 9.2e18. The model's integers and reals are unbounded; B14005 counts and MOEs stay far below those sizes.
- Coerce.ToNumeric: accepts only plain decimal numerals with an optional sign and point. pandas also accepts exponents and surrounding whitespace. Those spellings never occur in B14005 cells, and the model maps them to NaN.
- Frame.RowOf: a header with repeated names is not modelled faithfully. The model keeps the first cell for a name, whereas pandas would make the column lookup return a frame.
- pandas internals: dtypes, index renumbering by `ignore_index`, and column order. A frame's columns are a set.
- Num.Root: the square root is not computed and its floating-point rounding is not modelled. It is supplied by a function required to satisfy the square-root relation, which stands in for the runtime's `** 0.5`; `Num.RootUnique` shows the value it gives is the exact root.
