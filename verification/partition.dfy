/**
  The tract run's partitioned fetch. The Census API is asked once per county
  of a fixed list; each answer either becomes a frame whose `county` column is
  overwritten with the county asked for, or is skipped with a diagnostic
  naming the county. An empty JSON array is the one answer that is not caught:
  `data[0]` raises IndexError, which ends the whole run.
 */
module Partition {
  import opened Wrappers
  import opened Frame
  import opened Query
  import opened Coerce

  /** The county FIPS codes of Maryland, Baltimore City last, in the order they are requested. */
  const CountyCodes: seq<string> := [
    "001", "003", "005", "009", "011", "013", "015", "017", "019", "021",
    "023", "025", "027", "029", "031", "033", "035", "037", "039", "041",
    "043", "045", "047", "510"]

  /** Lexicographic order on strings of digits. */
  predicate CodeBefore(a: string, b: string) {
    |a| == 3 && |b| == 3 &&
    (a[0] < b[0] || (a[0] == b[0] && (a[1] < b[1] || (a[1] == b[1] && a[2] < b[2]))))
  }

  lemma CodeBeforeTransitive(a: string, b: string, c: string)
    requires CodeBefore(a, b) && CodeBefore(b, c)
    ensures CodeBefore(a, c)
  {
  }

  lemma {:induction false} AdjacentOrderIsTotal(s: seq<string>)
    requires forall i | 0 <= i < |s| - 1 :: CodeBefore(s[i], s[i + 1])
    ensures forall i, j | 0 <= i < j < |s| :: CodeBefore(s[i], s[j])
  {
    if |s| > 1 {
      AdjacentOrderIsTotal(s[1..]);
      forall j | 1 <= j < |s|
        ensures CodeBefore(s[0], s[j])
      {
        if j > 1 {
          assert CodeBefore(s[1..][0], s[1..][j - 1]);
          CodeBeforeTransitive(s[0], s[1], s[j]);
        }
      }
      forall i, j | 0 <= i < j < |s|
        ensures CodeBefore(s[i], s[j])
      {
        if i > 0 {
          assert CodeBefore(s[1..][i - 1], s[1..][j - 1]);
        }
      }
    }
  }

  /** 24 three-digit codes, in strictly increasing order and so pairwise distinct. */
  lemma CountyCodesWellFormed()
    ensures |CountyCodes| == 24
    ensures forall i | 0 <= i < |CountyCodes| :: |CountyCodes[i]| == 3 && AllDigits(CountyCodes[i])
    ensures forall i, j | 0 <= i < j < |CountyCodes| :: CodeBefore(CountyCodes[i], CountyCodes[j])
    ensures forall i, j | 0 <= i < j < |CountyCodes| :: CountyCodes[i] != CountyCodes[j]
  {
    AdjacentOrderIsTotal(CountyCodes);
  }

  /**
    What one request yields: a transport failure (connection error, HTTP error
    status, or a body that is not JSON, all `RequestException`s) or the
    decoded JSON array of string arrays.
   */
  datatype Fetched = TransportError | Payload(data: seq<seq<string>>)

  datatype FailureKind = RequestFailed | Unparsable

  /** A skipped county and the reason, as the diagnostic reports it. */
  datatype Failure = Failure(county: string, kind: FailureKind)

  /** The outcome of one loop iteration; `Crashed(c)` ends the run at county `c`. */
  datatype Step = Kept(frame: Frame) | Skipped(failure: Failure) | Crashed(county: string)

  /** The body of the loop for one county: fetch, build the frame, re-tag it. */
  function Attempt(county: string, fetched: Fetched): (s: Step)
    ensures s == Crashed(county) <==> fetched == Payload([])
    ensures s.Crashed? ==> s.county == county
    ensures s == Skipped(Failure(county, RequestFailed)) <==> fetched == TransportError
    ensures s == Skipped(Failure(county, Unparsable)) <==>
      fetched.Payload? && ToFrame(fetched.data) == Err(ShapeMismatch)
    ensures s.Skipped? ==> s.failure.county == county
    ensures s.Kept? ==>
      && fetched.Payload? && ToFrame(fetched.data).Ok?
      && |s.frame.rows| == |fetched.data| - 1
      && "county" in s.frame.columns
      && forall i | 0 <= i < |s.frame.rows| :: "county" in s.frame.rows[i] && s.frame.rows[i]["county"] == county
    ensures s.Kept? ==> s.frame == WithColumn(ToFrame(fetched.data).value, "county", county)
  {
    match fetched
    case TransportError => Skipped(Failure(county, RequestFailed))
    case Payload(data) =>
      match ToFrame(data)
      case Err(EmptyResponse) => Crashed(county)
      case Err(ShapeMismatch) => Skipped(Failure(county, Unparsable))
      case Ok(f) => Kept(WithColumn(f, "county", county))
  }

  /** What the loop leaves behind: the kept frames and the reported failures, each in visiting order. */
  datatype Report = Report(frames: seq<Frame>, failures: seq<Failure>)

  /** Accumulating the steps in order; stops at the first crash. */
  function Fold(steps: seq<Step>): (r: Result<Report, string>)
    ensures r.Ok? <==> forall i | 0 <= i < |steps| :: !steps[i].Crashed?
    ensures r.Err? ==> exists i | 0 <= i < |steps| ::
      steps[i] == Crashed(r.error) && forall j | 0 <= j < i :: !steps[j].Crashed?
    ensures r.Ok? ==> |r.value.frames| + |r.value.failures| == |steps|
    ensures r.Ok? ==> forall i | 0 <= i < |steps| && steps[i].Kept? :: steps[i].frame in r.value.frames
    ensures r.Ok? ==> forall i | 0 <= i < |steps| && steps[i].Skipped? :: steps[i].failure in r.value.failures
    ensures r.Ok? ==> forall f | f in r.value.frames :: Kept(f) in steps
    ensures r.Ok? ==> forall x | x in r.value.failures :: Skipped(x) in steps
  {
    if |steps| == 0 then Ok(Report([], []))
    else
      var rest := Fold(steps[1..]);
      assert forall i | 1 <= i < |steps| :: steps[1..][i - 1] == steps[i];
      match steps[0]
      case Crashed(c) => Err(c)
      case Kept(f) =>
        if rest.Err? then
          var i :| 0 <= i < |steps[1..]| && steps[1..][i] == Crashed(rest.error) && forall j | 0 <= j < i :: !steps[1..][j].Crashed?;
          assert steps[i + 1] == Crashed(rest.error);
          rest
        else Ok(Report([f] + rest.value.frames, rest.value.failures))
      case Skipped(x) =>
        if rest.Err? then
          var i :| 0 <= i < |steps[1..]| && steps[1..][i] == Crashed(rest.error) && forall j | 0 <= j < i :: !steps[1..][j].Crashed?;
          assert steps[i + 1] == Crashed(rest.error);
          rest
        else Ok(Report(rest.value.frames, [x] + rest.value.failures))
  }

  /** The outcome of folding `a` and then `b`, from the two folds' outcomes. */
  function Then(ra: Result<Report, string>, rb: Result<Report, string>): Result<Report, string> {
    if ra.Err? then ra
    else if rb.Err? then rb
    else Ok(Report(ra.value.frames + rb.value.frames, ra.value.failures + rb.value.failures))
  }

  /**
    The loop is a fold in listed order: folding `a + b` is folding `a`, then
    `b`, with the frames and failures of `a` first.
   */
  lemma {:induction false} FoldAppend(a: seq<Step>, b: seq<Step>)
    ensures Fold(a + b) == Then(Fold(a), Fold(b))
  {
    if |a| == 0 {
      assert a + b == b;
      if Fold(b).Ok? {
        assert [] + Fold(b).value.frames == Fold(b).value.frames;
        assert [] + Fold(b).value.failures == Fold(b).value.failures;
      }
    } else {
      assert (a + b)[0] == a[0];
      assert (a + b)[1..] == a[1..] + b;
      FoldFirst(a + b);
      FoldFirst(a);
      FoldAppend(a[1..], b);
      PushThen(a[0], Fold(a[1..]), Fold(b));
    }
  }

  /** The outcome of one step in front of the outcome of the steps after it. */
  function Push(s: Step, rest: Result<Report, string>): Result<Report, string> {
    match s
    case Crashed(c) => Err(c)
    case Kept(f) => if rest.Err? then rest else Ok(Report([f] + rest.value.frames, rest.value.failures))
    case Skipped(x) => if rest.Err? then rest else Ok(Report(rest.value.frames, [x] + rest.value.failures))
  }

  /** Folding a non-empty sequence pushes its first step onto the fold of the rest. */
  lemma FoldFirst(steps: seq<Step>)
    requires 0 < |steps|
    ensures Fold(steps) == Push(steps[0], Fold(steps[1..]))
  {
  }

  /** Pushing a step commutes with appending the outcome of later steps. */
  lemma PushThen(s: Step, ra: Result<Report, string>, rb: Result<Report, string>)
    ensures Push(s, Then(ra, rb)) == Then(Push(s, ra), rb)
  {
    if ra.Ok? && rb.Ok? {
      match s
      case Crashed(c) =>
      case Kept(f) =>
        assert [f] + (ra.value.frames + rb.value.frames) == ([f] + ra.value.frames) + rb.value.frames;
      case Skipped(x) =>
        assert [x] + (ra.value.failures + rb.value.failures) == ([x] + ra.value.failures) + rb.value.failures;
    }
  }

  /** A single step's contribution. */
  lemma FoldOne(s: Step)
    ensures Fold([s]) == match s
      case Crashed(c) => Err(c)
      case Kept(f) => Ok(Report([f], []))
      case Skipped(x) => Ok(Report([], [x]))
  {
    assert [s][1..] == [];
    assert Fold([s][1..]) == Ok(Report([], []));
    assert [s][0] == s;
    match s
    case Crashed(c) =>
    case Kept(f) => assert [f] + [] == [f];
    case Skipped(x) => assert [x] + [] == [x];
  }

  /** The steps for `codes`, one per county in listed order. */
  function Steps(codes: seq<string>, fetch: Query -> Fetched): (steps: seq<Step>)
    ensures |steps| == |codes|
  {
    seq(|codes|, i requires 0 <= i < |codes| => Attempt(codes[i], fetch(TractQuery(codes[i]))))
  }

  /** The loop over `codes`, with `fetch` answering each county's query; `Err(c)` when county `c` ended the run. */
  function Gather(codes: seq<string>, fetch: Query -> Fetched): (r: Result<Report, string>)
    ensures r.Ok? ==> |r.value.frames| + |r.value.failures| == |codes|
  {
    Fold(Steps(codes, fetch))
  }

  /** A single county's visit is its one attempt. */
  lemma GatherOne(c: string, fetch: Query -> Fetched)
    ensures Gather([c], fetch) == Fold([Attempt(c, fetch(TractQuery(c)))])
  {
    StepsOne(c, fetch);
  }

  /** The steps for a single county are its one attempt. */
  lemma StepsOne(c: string, fetch: Query -> Fetched)
    ensures Steps([c], fetch) == [Attempt(c, fetch(TractQuery(c)))]
  {
    assert Steps([c], fetch)[0] == Attempt(c, fetch(TractQuery(c)));
  }

  /** A county whose answer parses has its re-tagged frame kept. */
  lemma GatherKeepsParsed(codes: seq<string>, fetch: Query -> Fetched, i: nat)
    ensures
      && i < |codes| && Gather(codes, fetch).Ok?
      && fetch(TractQuery(codes[i])).Payload? && ToFrame(fetch(TractQuery(codes[i])).data).Ok?
      ==>
      WithColumn(ToFrame(fetch(TractQuery(codes[i])).data).value, "county", codes[i]) in Gather(codes, fetch).value.frames
  {
    if i < |codes| {
      assert Steps(codes, fetch)[i] == Attempt(codes[i], fetch(TractQuery(codes[i])));
      assert Fold(Steps(codes, fetch)) == Gather(codes, fetch);
    }
  }

  /**
    The run survives the loop exactly when no county answered with an empty
    array, and otherwise stops at the first county that did.
   */
  lemma GatherCrash(codes: seq<string>, fetch: Query -> Fetched)
    ensures Gather(codes, fetch).Ok? <==> forall i | 0 <= i < |codes| :: fetch(TractQuery(codes[i])) != Payload([])
    ensures Gather(codes, fetch).Err? ==> exists i | 0 <= i < |codes| ::
      && Gather(codes, fetch).error == codes[i] && fetch(TractQuery(codes[i])) == Payload([])
      && forall j | 0 <= j < i :: fetch(TractQuery(codes[j])) != Payload([])
  {
    var steps := Steps(codes, fetch);
    StepsCrash(codes, fetch);
    assert Gather(codes, fetch) == Fold(steps);
    if Gather(codes, fetch).Err? {
      var i :| 0 <= i < |steps| && steps[i] == Crashed(Gather(codes, fetch).error) && forall j | 0 <= j < i :: !steps[j].Crashed?;
      assert steps[i].county == codes[i];
    }
  }

  /** A county's step is a crash exactly when it answered with an empty array, and the crash names it. */
  lemma StepsCrash(codes: seq<string>, fetch: Query -> Fetched)
    ensures forall i | 0 <= i < |codes| ::
      Steps(codes, fetch)[i].Crashed? <==> fetch(TractQuery(codes[i])) == Payload([])
    ensures forall i | 0 <= i < |codes| && Steps(codes, fetch)[i].Crashed? :: Steps(codes, fetch)[i].county == codes[i]
  {
    forall i | 0 <= i < |codes|
      ensures Steps(codes, fetch)[i] == Attempt(codes[i], fetch(TractQuery(codes[i])))
    {
    }
  }

  /** Each county whose request failed in transport is reported as such. */
  lemma GatherReportsRequestFailures(codes: seq<string>, fetch: Query -> Fetched)
    requires Gather(codes, fetch).Ok?
    ensures forall i | 0 <= i < |codes| && fetch(TractQuery(codes[i])) == TransportError ::
      Failure(codes[i], RequestFailed) in Gather(codes, fetch).value.failures
  {
    var steps := Steps(codes, fetch);
    forall i | 0 <= i < |codes| && fetch(TractQuery(codes[i])) == TransportError
      ensures Failure(codes[i], RequestFailed) in Gather(codes, fetch).value.failures
    {
      assert steps[i] == Skipped(Failure(codes[i], RequestFailed));
    }
  }

  /** Each county whose table could not be parsed is reported as such. */
  lemma GatherReportsUnparsable(codes: seq<string>, fetch: Query -> Fetched)
    requires Gather(codes, fetch).Ok?
    ensures forall i | 0 <= i < |codes| && fetch(TractQuery(codes[i])).Payload? &&
        ToFrame(fetch(TractQuery(codes[i])).data) == Err(ShapeMismatch) ::
      Failure(codes[i], Unparsable) in Gather(codes, fetch).value.failures
  {
    var steps := Steps(codes, fetch);
    forall i | 0 <= i < |codes| && fetch(TractQuery(codes[i])).Payload? &&
        ToFrame(fetch(TractQuery(codes[i])).data) == Err(ShapeMismatch)
      ensures Failure(codes[i], Unparsable) in Gather(codes, fetch).value.failures
    {
      assert steps[i] == Skipped(Failure(codes[i], Unparsable));
    }
  }

  /** Only counties that were asked for are reported. */
  lemma GatherReportsOnlyCodes(codes: seq<string>, fetch: Query -> Fetched)
    requires Gather(codes, fetch).Ok?
    ensures forall x | x in Gather(codes, fetch).value.failures :: x.county in codes
  {
    var steps := Steps(codes, fetch);
    forall x | x in Gather(codes, fetch).value.failures
      ensures x.county in codes
    {
      var i :| 0 <= i < |steps| && steps[i] == Skipped(x);
      assert steps[i] == Attempt(codes[i], fetch(TractQuery(codes[i])));
    }
  }

  /**
    Every row of every kept frame carries, under `county`, one of the codes
    that were asked for, whatever the response itself said.
   */
  lemma KeptRowsRetagged(codes: seq<string>, fetch: Query -> Fetched)
    requires Gather(codes, fetch).Ok?
    ensures forall f | f in Gather(codes, fetch).value.frames ::
      forall k | 0 <= k < |f.rows| :: "county" in f.rows[k] && f.rows[k]["county"] in codes
  {
    var steps := Steps(codes, fetch);
    forall f | f in Gather(codes, fetch).value.frames
      ensures forall k | 0 <= k < |f.rows| :: "county" in f.rows[k] && f.rows[k]["county"] in codes
    {
      var i :| 0 <= i < |steps| && steps[i] == Kept(f);
      var s := Attempt(codes[i], fetch(TractQuery(codes[i])));
      assert s == steps[i] && s.Kept? && s.frame == f;
      assert forall k | 0 <= k < |f.rows| :: "county" in f.rows[k] && f.rows[k]["county"] == codes[i];
    }
  }

  /** The steps for `a + b` are those for `a` followed by those for `b`. */
  lemma StepsAppend(a: seq<string>, b: seq<string>, fetch: Query -> Fetched)
    ensures Steps(a + b, fetch) == Steps(a, fetch) + Steps(b, fetch)
  {
    assert forall i | 0 <= i < |a| :: (a + b)[i] == a[i];
    assert forall i | |a| <= i < |a + b| :: (a + b)[i] == b[i - |a|];
  }

  /** Visiting `a + b` is visiting `a` and then `b`. */
  lemma GatherAppend(a: seq<string>, b: seq<string>, fetch: Query -> Fetched)
    ensures Gather(a + b, fetch) == Then(Gather(a, fetch), Gather(b, fetch))
  {
    StepsAppend(a, b, fetch);
    FoldAppend(Steps(a, fetch), Steps(b, fetch));
  }

  /** Steps that are all skips fold into their failures, in order, and no frame. */
  lemma {:induction false} FoldAllSkipped(steps: seq<Step>)
    requires forall i | 0 <= i < |steps| :: steps[i].Skipped?
    ensures Fold(steps).Ok? && Fold(steps).value.frames == []
    ensures |Fold(steps).value.failures| == |steps|
    ensures forall i | 0 <= i < |steps| :: Fold(steps).value.failures[i] == steps[i].failure
  {
    if |steps| > 0 {
      FoldAllSkipped(steps[1..]);
      var rest := Fold(steps[1..]);
      assert Fold(steps) == Ok(Report(rest.value.frames, [steps[0].failure] + rest.value.failures));
      forall i | 1 <= i < |steps|
        ensures Fold(steps).value.failures[i] == steps[i].failure
      {
        assert Fold(steps).value.failures[i] == rest.value.failures[i - 1] == steps[1..][i - 1].failure;
      }
    }
  }

  /** When every request fails in transport, every county is reported, in order, and no frame is kept. */
  lemma AllTransportErrors(codes: seq<string>, fetch: Query -> Fetched)
    requires forall i | 0 <= i < |codes| :: fetch(TractQuery(codes[i])) == TransportError
    ensures Gather(codes, fetch).Ok?
    ensures Gather(codes, fetch).value.frames == []
    ensures |Gather(codes, fetch).value.failures| == |codes|
    ensures forall i | 0 <= i < |codes| :: Gather(codes, fetch).value.failures[i] == Failure(codes[i], RequestFailed)
  {
    var steps := Steps(codes, fetch);
    forall i | 0 <= i < |codes|
      ensures steps[i] == Skipped(Failure(codes[i], RequestFailed))
    {
      assert steps[i] == Attempt(codes[i], TransportError);
    }
    FoldAllSkipped(steps);
  }
}
