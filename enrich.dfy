/** `set_dollar_per_block` and `get_price_at_block`: each block record gets the
    oracle price at its height and the USD value of its rewards. The price
    endpoint is replaced by `lookup`, which gives the `(price, timestamp)` pair
    a successful response carries, or None where the status is not a success. */
module Enrich {
  import opened Records
  import opened InPlace
  import opened Aggregate

  /** The oracle's answer for one block: the price in the smallest unit per
      display unit, and the time of the quote. */
  datatype PriceQuote = PriceQuote(price: int, timestamp: Value)

  /** The height the price request is made for: `int(float(block['height']))`. */
  function BlockHeight(rec: Record, parseFloat: string -> Option<real>): (r: Result<int>)
    ensures Get(rec, "height").None? ==> r == Err(KeyError("height"))
    ensures Get(rec, "height").Some? && Get(rec, "height").value.Int? ==> r == Ok(Get(rec, "height").value.i)
  {
    match Get(rec, "height")
    case None => Err(KeyError("height"))
    case Some(h) =>
      match ToFloat(h, parseFloat)
      case Err(e) => Err(e)
      case Ok(x) => TruncOfInt(h); Ok(Trunc(x))
  }

  /** One pass of the loop body of `set_dollar_per_block`. A failed lookup
      returns None, whose unpacking raises TypeError before anything is
      assigned. Otherwise `price` and `price_time` are assigned, and then
      `usd_total = reward_total / MULTIPLIER * price`, which raises KeyError
      when `reward_total` is missing and TypeError when it is not a number. */
  function PriceBlock(rec: Record, lookup: int -> Option<PriceQuote>, parseFloat: string -> Option<real>): Applied {
    match BlockHeight(rec, parseFloat)
    case Err(e) => Applied(rec, Raised(e))
    case Ok(h) =>
      match lookup(h)
      case None => Applied(rec, Raised(TypeError))
      case Some(q) => AddUsdTotal(Set(Set(rec, "price", Int(q.price)), "price_time", q.timestamp), q.price)
  }

  /** `reward_total / MULTIPLIER * price`, evaluated left to right. */
  function UsdValue(rewardTotal: real, price: int): real {
    rewardTotal / MULTIPLIER as real * price as real
  }

  /** `usd_total = reward_total / MULTIPLIER * price` on a priced record. */
  function AddUsdTotal(priced: Record, price: int): Applied {
    match Get(priced, "reward_total")
    case None => Applied(priced, Raised(KeyError("reward_total")))
    case Some(rt) =>
      match Numeric(rt)
      case Err(e) => Applied(priced, Raised(e))
      case Ok(t) => Applied(Set(priced, "usd_total", Real(UsdValue(t, price))), Done)
  }

  function Pricer(lookup: int -> Option<PriceQuote>, parseFloat: string -> Option<real>): Record -> Applied {
    rec => PriceBlock(rec, lookup, parseFloat)
  }

  /** `out` is `rec` enriched: the lookup for its height succeeded, `price` and
      `price_time` are the quote's, `usd_total` is `reward_total / MULTIPLIER *
      price`, and every other key, `height` and `reward_total` included, is as
      before; a dict stays a dict, its key order the old one with whichever of
      `price`, `price_time` and `usd_total` were new appended in that order. */
  ghost predicate EnrichedFrom(out: Record, rec: Record, lookup: int -> Option<PriceQuote>, parseFloat: string -> Option<real>) {
    && BlockHeight(rec, parseFloat).Ok?
    && lookup(BlockHeight(rec, parseFloat).value).Some?
    && Get(rec, "reward_total").Some?
    && Numeric(Get(rec, "reward_total").value).Ok?
    && var q := lookup(BlockHeight(rec, parseFloat).value).value;
       var rt := Numeric(Get(rec, "reward_total").value).value;
       && Get(out, "price") == Some(Int(q.price))
       && Get(out, "price_time") == Some(q.timestamp)
       && Get(out, "usd_total") == Some(Real(UsdValue(rt, q.price)))
       && (forall k :: k != "price" && k != "price_time" && k != "usd_total" ==> Get(out, k) == Get(rec, k))
       && (IsDict(rec) ==>
             IsDict(out) && out.keys == WithKey(WithKey(WithKey(rec.keys, "price"), "price_time"), "usd_total"))
  }

  lemma PriceBlockMeaning(rec: Record, lookup: int -> Option<PriceQuote>, parseFloat: string -> Option<real>)
    requires PriceBlock(rec, lookup, parseFloat).outcome.Done?
    ensures EnrichedFrom(PriceBlock(rec, lookup, parseFloat).rec, rec, lookup, parseFloat)
  {
    var q := lookup(BlockHeight(rec, parseFloat).value).value;
    var r1 := Set(rec, "price", Int(q.price));
    var priced := Set(r1, "price_time", q.timestamp);
    assert PriceBlock(rec, lookup, parseFloat) == AddUsdTotal(priced, q.price);
    assert Get(priced, "reward_total") == Get(r1, "reward_total") == Get(rec, "reward_total");
    var t := Numeric(Get(rec, "reward_total").value).value;
    var out := Set(priced, "usd_total", Real(UsdValue(t, q.price)));
    assert PriceBlock(rec, lookup, parseFloat).rec == out;
    assert Get(out, "price") == Get(priced, "price") == Get(r1, "price");
    assert Get(out, "price_time") == Get(priced, "price_time");
    forall k | k != "price" && k != "price_time" && k != "usd_total" ensures Get(out, k) == Get(rec, k) {
      assert Get(out, k) == Get(priced, k) == Get(r1, k);
    }
    if IsDict(rec) {
      SetKeepsDict(rec, "price", Int(q.price));
      SetKeepsDict(r1, "price_time", q.timestamp);
      SetKeepsDict(priced, "usd_total", Real(UsdValue(t, q.price)));
    }
  }

  /** After a finished enrichment the list has the same length and order, and
      every record is its old self enriched. */
  lemma EnrichmentMeaning(recs: seq<Record>, lookup: int -> Option<PriceQuote>, parseFloat: string -> Option<real>)
    requires UpdateEach(recs, Pricer(lookup, parseFloat)).outcome.Done?
    ensures forall i :: 0 <= i < |recs| ==>
              EnrichedFrom(UpdateEach(recs, Pricer(lookup, parseFloat)).records[i], recs[i], lookup, parseFloat)
  {
    var body := Pricer(lookup, parseFloat);
    forall i | 0 <= i < |recs|
      ensures EnrichedFrom(UpdateEach(recs, body).records[i], recs[i], lookup, parseFloat)
    {
      UpdateEachDone(recs, body, i);
      assert body(recs[i]) == PriceBlock(recs[i], lookup, parseFloat);
      PriceBlockMeaning(recs[i], lookup, parseFloat);
    }
  }

  /** A failed price lookup for any block whose height is readable aborts the
      whole enrichment. */
  lemma FailedLookupAborts(recs: seq<Record>, lookup: int -> Option<PriceQuote>, parseFloat: string -> Option<real>, i: int)
    requires 0 <= i < |recs|
    requires BlockHeight(recs[i], parseFloat).Ok? && lookup(BlockHeight(recs[i], parseFloat).value).None?
    ensures UpdateEach(recs, Pricer(lookup, parseFloat)).outcome.Raised?
  {
    var body := Pricer(lookup, parseFloat);
    UpdateEachFinished(recs, body);
    assert body(recs[i]) == PriceBlock(recs[i], lookup, parseFloat);
  }

  /** Dividing by MULTIPLIER in both stages is dividing the raw product by its square. */
  lemma UsdValueOfRaw(raw: int, price: int)
    ensures UsdValue(raw as real / MULTIPLIER as real, price) == (raw * price) as real / (MULTIPLIER * MULTIPLIER) as real
  {
    var m := MULTIPLIER as real;
    calc {
      UsdValue(raw as real / m, price);
      raw as real / m / m * price as real;
      { assert (MULTIPLIER * MULTIPLIER) as real == m * m; }
      (raw as real * price as real) / (MULTIPLIER * MULTIPLIER) as real;
    }
  }

  /** Across the two stages, the USD value of a block fetched from the API with
      integer amounts (none at all included) is its raw reward total times the raw price divided by
      MULTIPLIER twice: the division by MULTIPLIER happens once per stage. */
  lemma UsdTotalFromRawAmounts(rec: Record, parse: string -> Result<Value>,
                               lookup: int -> Option<PriceQuote>, parseFloat: string -> Option<real>)
    requires Get(rec, "rewards").Some? && Get(rec, "rewards").value.List?
    requires IntegerAmounts(Get(rec, "rewards").value.entries)
    requires PriceBlock(CompileBlock(rec, false, parse).rec, lookup, parseFloat).outcome.Done?
    ensures BlockHeight(rec, parseFloat).Ok? && lookup(BlockHeight(rec, parseFloat).value).Some?
    ensures var price := lookup(BlockHeight(rec, parseFloat).value).value.price;
            var raw := RawTotal(Get(rec, "rewards").value.entries);
            Get(PriceBlock(CompileBlock(rec, false, parse).rec, lookup, parseFloat).rec, "usd_total")
              == Some(Real((raw * price) as real / (MULTIPLIER * MULTIPLIER) as real))
  {
    var es := Get(rec, "rewards").value.entries;
    var raw := RawTotal(es);
    var total := if |es| == 0 then Int(0) else Real(raw as real / MULTIPLIER as real);
    assert RewardTotal(Get(rec, "rewards").value) == Ok(total);
    var compiled := Set(rec, "reward_total", total);
    assert CompileBlock(rec, false, parse).rec == compiled;
    assert Get(compiled, "height") == Get(rec, "height");
    assert BlockHeight(compiled, parseFloat) == BlockHeight(rec, parseFloat);
    PriceBlockMeaning(compiled, lookup, parseFloat);
    var price := lookup(BlockHeight(rec, parseFloat).value).value.price;
    assert Numeric(Get(compiled, "reward_total").value) == Ok(raw as real / MULTIPLIER as real);
    UsdValueOfRaw(raw, price);
  }

  /** A block whose rewards total 5.0 in display units, priced at 200000000
      (2.0 display units), gets a `usd_total` of 10.0: the total is divided by
      MULTIPLIER a second time before the price is applied. */
  lemma UsdTotalScenario(rec: Record, lookup: int -> Option<PriceQuote>, parseFloat: string -> Option<real>, t: Value)
    requires BlockHeight(rec, parseFloat).Ok?
    requires lookup(BlockHeight(rec, parseFloat).value) == Some(PriceQuote(200000000, t))
    requires Get(rec, "reward_total") == Some(Real(5.0))
    ensures PriceBlock(rec, lookup, parseFloat).outcome.Done?
    ensures Get(PriceBlock(rec, lookup, parseFloat).rec, "usd_total") == Some(Real(10.0))
  {
    assert UsdValue(5.0, 200000000) == 10.0;
    var priced := Set(Set(rec, "price", Int(200000000)), "price_time", t);
    assert Get(priced, "reward_total") == Get(rec, "reward_total");
  }
}
