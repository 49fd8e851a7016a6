/** The yearly summary of `output_total_rewards_for_year`: the sum of the USD
    values of the blocks whose time falls in the year's window. The window's
    bounds (the epochs of the year's first and last second) are parameters;
    converting the year to them is the platform's clock library. */
module YearSummary {
  import opened Records

  /** The block has a usable `usd_total`: present, not blank text and not None. */
  predicate HasUsableUsd(rec: Record) {
    match Get(rec, "usd_total")
    case None => false
    case Some(Str(s)) => !IsBlank(s)
    case Some(Null) => false
    case Some(_) => true
  }

  /** The block's time as the loop compares it: `int(float(block["time"]))`. */
  function BlockTime(rec: Record, parseFloat: string -> Option<real>): (r: Result<int>)
    ensures Get(rec, "time").None? ==> r == Err(KeyError("time"))
    ensures Get(rec, "time").Some? && Get(rec, "time").value.Int? ==> r == Ok(Get(rec, "time").value.i)
  {
    match Get(rec, "time")
    case None => Err(KeyError("time"))
    case Some(t) =>
      match ToFloat(t, parseFloat)
      case Err(e) => Err(e)
      case Ok(x) => TruncOfInt(t); Ok(Trunc(x))
  }

  /** What one pass of the summing loop adds to the total, or the exception
      that ends it: a block without a usable `usd_total` exits with status 1
      (after reading its `height` for the message), an in-window block adds its
      `usd_total` (and reads `price_time` for the message), any other block
      adds nothing. */
  function BlockContribution(rec: Record, start: int, end: int, parseFloat: string -> Option<real>): (r: Result<real>)
    ensures !HasUsableUsd(rec) ==>
              r == Err(if Get(rec, "height").None? then KeyError("height") else Exit(1))
    ensures r.Ok? && r.value != 0.0 ==>
              BlockTime(rec, parseFloat).Ok? && start <= BlockTime(rec, parseFloat).value <= end
  {
    if !HasUsableUsd(rec) then
      if Get(rec, "height").None? then Err(KeyError("height")) else Err(Exit(1))
    else
      match BlockTime(rec, parseFloat)
      case Err(e) => Err(e)
      case Ok(t) =>
        if start <= t <= end then
          match ToFloat(Get(rec, "usd_total").value, parseFloat)
          case Err(e) => Err(e)
          case Ok(u) => if Get(rec, "price_time").None? then Err(KeyError("price_time")) else Ok(u)
        else Ok(0.0)
  }

  /** The total after the loop has run over `recs` in order, or the first
      exception raised. */
  function YearTotal(recs: seq<Record>, start: int, end: int, parseFloat: string -> Option<real>): Result<real> {
    if |recs| == 0 then Ok(0.0)
    else
      var n := |recs| - 1;
      match YearTotal(recs[..n], start, end, parseFloat)
      case Err(e) => Err(e)
      case Ok(t) =>
        match BlockContribution(recs[n], start, end, parseFloat)
        case Err(e) => Err(e)
        case Ok(c) => Ok(t + c)
  }

  /** The summary succeeds exactly when no block's pass raises. */
  lemma {:induction false} YearTotalSucceedsIff(recs: seq<Record>, start: int, end: int, parseFloat: string -> Option<real>)
    ensures YearTotal(recs, start, end, parseFloat).Ok? <==>
              forall i :: 0 <= i < |recs| ==> BlockContribution(recs[i], start, end, parseFloat).Ok?
  {
    if |recs| > 0 {
      var n := |recs| - 1;
      YearTotalSucceedsIff(recs[..n], start, end, parseFloat);
      assert forall i :: 0 <= i < n ==> recs[..n][i] == recs[i];
    }
  }

  /** The block lies in the window and its `usd_total` converts. */
  predicate Counted(rec: Record, start: int, end: int, parseFloat: string -> Option<real>) {
    && BlockTime(rec, parseFloat).Ok?
    && start <= BlockTime(rec, parseFloat).value <= end
    && Get(rec, "usd_total").Some?
    && ToFloat(Get(rec, "usd_total").value, parseFloat).Ok?
  }

  /** The sum of the USD values of the counted blocks. */
  function WindowSum(recs: seq<Record>, start: int, end: int, parseFloat: string -> Option<real>): real {
    if |recs| == 0 then 0.0
    else
      (if Counted(recs[0], start, end, parseFloat)
       then ToFloat(Get(recs[0], "usd_total").value, parseFloat).value
       else 0.0)
      + WindowSum(recs[1..], start, end, parseFloat)
  }

  lemma {:induction false} WindowSumAppend(a: seq<Record>, b: seq<Record>, start: int, end: int, parseFloat: string -> Option<real>)
    ensures WindowSum(a + b, start, end, parseFloat) == WindowSum(a, start, end, parseFloat) + WindowSum(b, start, end, parseFloat)
  {
    if |a| == 0 {
      assert a + b == b;
    } else {
      assert (a + b)[0] == a[0];
      assert (a + b)[1..] == a[1..] + b;
      WindowSumAppend(a[1..], b, start, end, parseFloat);
    }
  }

  /** A successful contribution is the block's USD value when it is counted,
      and zero otherwise. */
  lemma ContributionIsCounted(rec: Record, start: int, end: int, parseFloat: string -> Option<real>)
    requires BlockContribution(rec, start, end, parseFloat).Ok?
    ensures BlockContribution(rec, start, end, parseFloat).value ==
              if Counted(rec, start, end, parseFloat) then ToFloat(Get(rec, "usd_total").value, parseFloat).value else 0.0
  {
  }

  /** A finished summary is the sum of the USD values of exactly the blocks whose
      time lies in the window, in any grouping of the records. */
  lemma {:induction false} YearTotalIsWindowSum(recs: seq<Record>, start: int, end: int, parseFloat: string -> Option<real>)
    requires YearTotal(recs, start, end, parseFloat).Ok?
    ensures YearTotal(recs, start, end, parseFloat).value == WindowSum(recs, start, end, parseFloat)
  {
    if |recs| > 0 {
      var n := |recs| - 1;
      var last := recs[n];
      YearTotalIsWindowSum(recs[..n], start, end, parseFloat);
      ContributionIsCounted(last, start, end, parseFloat);
      assert recs == recs[..n] + [last];
      WindowSumAppend(recs[..n], [last], start, end, parseFloat);
      assert WindowSum([last], start, end, parseFloat) == BlockContribution(last, start, end, parseFloat).value by {
        assert [last][1..] == [];
      }
    }
  }

  /** A block without a usable `usd_total` makes the summary fail, whatever the
      other blocks hold. */
  lemma MissingUsdAborts(recs: seq<Record>, start: int, end: int, parseFloat: string -> Option<real>, i: int)
    requires 0 <= i < |recs| && !HasUsableUsd(recs[i])
    ensures YearTotal(recs, start, end, parseFloat).Err?
  {
    assert BlockContribution(recs[i], start, end, parseFloat).Err?;
    YearTotalSucceedsIff(recs, start, end, parseFloat);
  }

  /** Blocks outside the window add nothing: the summary of a list is that of
      its in-window blocks. */
  lemma {:induction false} OutOfWindowAddsNothing(recs: seq<Record>, rec: Record, start: int, end: int, parseFloat: string -> Option<real>)
    requires YearTotal(recs, start, end, parseFloat).Ok?
    requires HasUsableUsd(rec) && BlockTime(rec, parseFloat).Ok?
    requires !(start <= BlockTime(rec, parseFloat).value <= end)
    ensures YearTotal(recs + [rec], start, end, parseFloat) == YearTotal(recs, start, end, parseFloat)
  {
    var all := recs + [rec];
    assert all[..|recs|] == recs;
    assert YearTotal(recs, start, end, parseFloat).value + 0.0 == YearTotal(recs, start, end, parseFloat).value;
  }

  /** When every counted block has a non-negative USD value the summary is
      non-negative. */
  lemma {:induction false} YearTotalNonNegative(recs: seq<Record>, start: int, end: int, parseFloat: string -> Option<real>)
    requires YearTotal(recs, start, end, parseFloat).Ok?
    requires forall i :: 0 <= i < |recs| ==>
               BlockContribution(recs[i], start, end, parseFloat).Ok? ==> BlockContribution(recs[i], start, end, parseFloat).value >= 0.0
    ensures YearTotal(recs, start, end, parseFloat).value >= 0.0
  {
    if |recs| > 0 {
      var n := |recs| - 1;
      assert forall i :: 0 <= i < n ==> recs[..n][i] == recs[i];
      YearTotalNonNegative(recs[..n], start, end, parseFloat);
    }
  }

  /** Once the loop has raised on a prefix, the later blocks are never looked at. */
  lemma {:induction false} YearTotalStops(recs: seq<Record>, k: int, start: int, end: int, parseFloat: string -> Option<real>)
    requires 0 <= k <= |recs|
    requires YearTotal(recs[..k], start, end, parseFloat).Err?
    ensures YearTotal(recs, start, end, parseFloat) == YearTotal(recs[..k], start, end, parseFloat)
    decreases |recs|
  {
    if k == |recs| {
      assert recs[..k] == recs;
    } else {
      var n := |recs| - 1;
      assert recs[..n][..k] == recs[..k];
      YearTotalStops(recs[..n], k, start, end, parseFloat);
      assert YearTotal(recs[..n], start, end, parseFloat).Err?;
    }
  }
}
