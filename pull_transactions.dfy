/** The `PullTransactions` object: the account it works for, the reward
    records it updates stage by stage, and the two flags recording which
    stages were loaded from a local cache file instead of the API. Each method
    is a stage of the pipeline; the cache files, the HTTP service, the price
    oracle and the text parsers are parameters. */
module Pipeline {
  import opened Records
  import opened InPlace
  import opened Fetch
  import opened Aggregate
  import opened Enrich
  import opened Export
  import opened YearSummary

  class PullTransactions {
    const accountAddress: string
    const pullFromCsv: bool
    var rewardActivity: seq<Record>
    /** `using_cache['transactions_for_account']` */
    var transactionsCached: bool
    /** `using_cache['dollar_per_block']` */
    var dollarPerBlockCached: bool

    constructor (accountAddress: string, pullFromCsv: bool)
      ensures this.accountAddress == accountAddress && this.pullFromCsv == pullFromCsv
      ensures rewardActivity == [] && !transactionsCached && !dollarPerBlockCached
    {
      this.accountAddress := accountAddress;
      this.pullFromCsv := pullFromCsv;
      rewardActivity := [];
      transactionsCached := false;
      dollarPerBlockCached := false;
    }

    /** Loads the reward entries: the cached rows when the cache file exists
        (`cache`), otherwise the reward entries of the pages the API returns
        (`responses`, in request order). Reading the first record afterwards
        raises IndexError when there is none. */
    method GetTransactionsForAccount(cache: Option<seq<Record>>, responses: seq<Response>) returns (outcome: Outcome)
      requires cache.None? ==> Terminates(responses)
      modifies this
      ensures transactionsCached == (old(transactionsCached) || cache.Some?)
      ensures dollarPerBlockCached == old(dollarPerBlockCached)
      ensures Fetched(cache, responses).Ok? ==>
                rewardActivity == Fetched(cache, responses).value
                && outcome == (if |rewardActivity| == 0 then Raised(IndexError) else Done)
      ensures Fetched(cache, responses).Err? ==>
                rewardActivity == old(rewardActivity) && outcome == Raised(Fetched(cache, responses).error)
    {
      if cache.Some? {
        transactionsCached := true;
        rewardActivity := cache.value;
      } else {
        ghost var stop :| 0 <= stop < |responses| && !Continues(responses[stop]);
        var activity: seq<Record> := [];
        var k := 0;
        while Continues(responses[k])
          invariant 0 <= k <= stop
          invariant forall j :: 0 <= j < k ==> Continues(responses[j])
          invariant activity == Concat(responses[..k])
          decreases stop - k
        {
          assert responses[..k + 1][..k] == responses[..k];
          activity := activity + responses[k].data;
          k := k + 1;
        }
        CollectedIsContinuingPrefix(responses, k);
        var filtered := RewardEntries(activity);
        if filtered.Err? {
          return Raised(filtered.error);
        }
        rewardActivity := filtered.value;
      }
      if |rewardActivity| == 0 {
        return Raised(IndexError);
      }
      return Done;
    }

    /** Sums each block's reward amounts into `reward_total`, first parsing the
        `rewards` text when the records came from the cache; the records are
        updated in place and the first exception ends the loop. */
    method CompileRewardsPerBlock(parse: string -> Result<Value>) returns (outcome: Outcome)
      modifies this
      ensures Sweep(rewardActivity, outcome) == UpdateEach(old(rewardActivity), Compiler(transactionsCached, parse))
      ensures transactionsCached == old(transactionsCached) && dollarPerBlockCached == old(dollarPerBlockCached)
    {
      ghost var recs := rewardActivity;
      var body := Compiler(transactionsCached, parse);
      var i := 0;
      while i < |rewardActivity|
        invariant 0 <= i <= |rewardActivity| == |recs|
        invariant UpdateEach(recs[..i], body) == Sweep(rewardActivity[..i], Done)
        invariant rewardActivity[i..] == recs[i..]
        invariant transactionsCached == old(transactionsCached) && dollarPerBlockCached == old(dollarPerBlockCached)
      {
        LoopStep(recs, rewardActivity, i, body);
        var a := body(rewardActivity[i]);
        rewardActivity := rewardActivity[i := a.rec];
        if a.outcome.Raised? {
          return a.outcome;
        }
        i := i + 1;
      }
      assert recs[..i] == recs && rewardActivity[..i] == rewardActivity;
      return Done;
    }

    /** Prices each block: the cached rows when the cache file exists, otherwise
        each record in turn gets the oracle's `price` and `price_time` for its
        height and its `usd_total`; the first exception ends the loop. */
    method SetDollarPerBlock(cache: Option<seq<Record>>, lookup: int -> Option<PriceQuote>,
                             parseFloat: string -> Option<real>) returns (outcome: Outcome)
      modifies this
      ensures cache.Some? ==> rewardActivity == cache.value && dollarPerBlockCached && outcome == Done
      ensures cache.None? ==>
                Sweep(rewardActivity, outcome) == UpdateEach(old(rewardActivity), Pricer(lookup, parseFloat))
                && dollarPerBlockCached == old(dollarPerBlockCached)
      ensures transactionsCached == old(transactionsCached)
    {
      if cache.Some? {
        dollarPerBlockCached := true;
        rewardActivity := cache.value;
        return Done;
      }
      ghost var recs := rewardActivity;
      var body := Pricer(lookup, parseFloat);
      var i := 0;
      while i < |rewardActivity|
        invariant 0 <= i <= |rewardActivity| == |recs|
        invariant UpdateEach(recs[..i], body) == Sweep(rewardActivity[..i], Done)
        invariant rewardActivity[i..] == recs[i..]
        invariant transactionsCached == old(transactionsCached) && dollarPerBlockCached == old(dollarPerBlockCached)
      {
        LoopStep(recs, rewardActivity, i, body);
        var a := body(rewardActivity[i]);
        rewardActivity := rewardActivity[i := a.rec];
        if a.outcome.Raised? {
          return a.outcome;
        }
        i := i + 1;
      }
      assert recs[..i] == recs && rewardActivity[..i] == rewardActivity;
      return Done;
    }

    /** The table `store_to_csv` writes for the reward records: header from the
        first record's keys, then each record's values in its own key order. */
    method StoreToCsv() returns (r: Result<Table>)
      ensures r == StoredTable(rewardActivity)
    {
      var recs := rewardActivity;
      if |recs| == 0 {
        return Err(IndexError);
      }
      var rows: seq<seq<Cell>> := [];
      var i := 0;
      while i < |recs|
        invariant 0 <= i <= |recs|
        invariant |rows| == i
        invariant forall j :: 0 <= j < i ==> rows[j] == Row(recs[j])
      {
        rows := rows + [Row(recs[i])];
        i := i + 1;
      }
      assert rows == seq(|recs|, j requires 0 <= j < |recs| => Row(recs[j]));
      return Ok(Table(recs[0].keys, rows));
    }

    /** Writes the five reward columns, rescaling each record's `price` in place
        just before its row is written. `written` holds the rows written before
        the loop ended; a record whose price cannot be rescaled raises, leaving
        the file with the rows before it. */
    method OutputToCsvAllRewards(parseFloat: string -> Option<real>) returns (written: Table, outcome: Outcome)
      modifies this
      ensures Sweep(rewardActivity, outcome) == UpdateEach(old(rewardActivity), Rescaler(parseFloat))
      ensures written.header == RewardColumns
      ensures |written.rows| <= |rewardActivity|
      ensures outcome.Done? ==> |written.rows| == |rewardActivity|
      ensures outcome.Raised? ==>
                |written.rows| < |old(rewardActivity)|
                && UpdateEach(old(rewardActivity)[..|written.rows|], Rescaler(parseFloat)).outcome.Done?
                && Rescaler(parseFloat)(old(rewardActivity)[|written.rows|]).outcome == outcome
      ensures forall j :: 0 <= j < |written.rows| ==> written.rows[j] == Projection(rewardActivity[j])
      ensures transactionsCached == old(transactionsCached) && dollarPerBlockCached == old(dollarPerBlockCached)
    {
      ghost var recs := rewardActivity;
      var body := Rescaler(parseFloat);
      var rows: seq<seq<Cell>> := [];
      var i := 0;
      while i < |rewardActivity|
        invariant 0 <= i <= |rewardActivity| == |recs|
        invariant UpdateEach(recs[..i], body) == Sweep(rewardActivity[..i], Done)
        invariant rewardActivity[i..] == recs[i..]
        invariant transactionsCached == old(transactionsCached) && dollarPerBlockCached == old(dollarPerBlockCached)
        invariant |rows| == i
        invariant forall j :: 0 <= j < i ==> rows[j] == Projection(rewardActivity[j])
      {
        LoopStep(recs, rewardActivity, i, body);
        var a := body(rewardActivity[i]);
        ProjectionsExtend(rows, rewardActivity, i, a.rec);
        rewardActivity := rewardActivity[i := a.rec];
        if a.outcome.Raised? {
          return Table(RewardColumns, rows), a.outcome;
        }
        rows := rows + [Projection(a.rec)];
        i := i + 1;
      }
      assert recs[..i] == recs && rewardActivity[..i] == rewardActivity;
      return Table(RewardColumns, rows), Done;
    }

    /** The USD total of the blocks whose time lies between the epochs of the
        year's first and last second, or the exception that ends the loop. */
    method OutputTotalRewardsForYear(startEpoch: int, endEpoch: int, parseFloat: string -> Option<real>)
      returns (r: Result<real>)
      ensures r == YearTotal(rewardActivity, startEpoch, endEpoch, parseFloat)
    {
      var total := 0.0;
      var i := 0;
      while i < |rewardActivity|
        invariant 0 <= i <= |rewardActivity|
        invariant YearTotal(rewardActivity[..i], startEpoch, endEpoch, parseFloat) == Ok(total)
      {
        assert rewardActivity[..i + 1][..i] == rewardActivity[..i];
        var c := BlockContribution(rewardActivity[i], startEpoch, endEpoch, parseFloat);
        if c.Err? {
          YearTotalStops(rewardActivity, i + 1, startEpoch, endEpoch, parseFloat);
          return Err(c.error);
        }
        total := total + c.value;
        i := i + 1;
      }
      assert rewardActivity[..i] == rewardActivity;
      return Ok(total);
    }
  }
}
