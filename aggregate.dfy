/** `compile_rewards_per_block`: each block record gains `reward_total`, the
    sum of its reward amounts in display units. */
module Aggregate {
  import opened Records
  import opened InPlace

  /** `sum(item['amount'] / MULTIPLIER for item in entries)` as long as every
      entry has a numeric `amount`; otherwise the error of the first entry that
      has none (KeyError) or a non-numeric one (TypeError). */
  function AmountsTotal(entries: seq<Record>): Result<real> {
    if |entries| == 0 then Ok(0.0)
    else
      match Get(entries[0], "amount")
      case None => Err(KeyError("amount"))
      case Some(a) =>
        match Numeric(a)
        case Err(e) => Err(e)
        case Ok(x) =>
          match AmountsTotal(entries[1..])
          case Err(e) => Err(e)
          case Ok(t) => Ok(x / MULTIPLIER as real + t)
  }

  /** Every entry carries an integer `amount`, as the API returns it. */
  predicate IntegerAmounts(entries: seq<Record>) {
    forall i :: 0 <= i < |entries| ==> Get(entries[i], "amount").Some? && Get(entries[i], "amount").value.Int?
  }

  /** The total of the raw integer amounts, in the smallest currency unit. */
  function RawTotal(entries: seq<Record>): int
    requires IntegerAmounts(entries)
  {
    if |entries| == 0 then 0
    else Get(entries[0], "amount").value.i + RawTotal(entries[1..])
  }

  /** With integer amounts, the per-entry divisions add up to one division of
      the raw total: `reward_total` is the block's reward in display units. */
  lemma {:induction false} AmountsTotalOfIntegers(entries: seq<Record>)
    requires IntegerAmounts(entries)
    ensures AmountsTotal(entries) == Ok(RawTotal(entries) as real / MULTIPLIER as real)
  {
    if |entries| > 0 {
      var tail := entries[1..];
      assert IntegerAmounts(tail) by {
        forall i | 0 <= i < |tail| ensures Get(tail[i], "amount").Some? && Get(tail[i], "amount").value.Int? {
          assert tail[i] == entries[i + 1];
        }
      }
      AmountsTotalOfIntegers(tail);
      var a := Get(entries[0], "amount").value.i;
      var m := MULTIPLIER as real;
      assert a as real / m + RawTotal(tail) as real / m == (a + RawTotal(tail)) as real / m;
    }
  }

  /** The value `sum(...)` gives for the block's `rewards`: the int 0 for an
      empty iterable (the empty list, and the empty string, whose characters are
      never indexed), a float otherwise. A non-empty string, a number or None
      raise TypeError. */
  function RewardTotal(rewards: Value): (r: Result<Value>)
    ensures r.Ok? ==> r.value.Int? || r.value.Real?
    ensures rewards.List? && |rewards.entries| == 0 ==> r == Ok(Int(0))
    ensures rewards.List? && IntegerAmounts(rewards.entries) && |rewards.entries| > 0 ==>
              r == Ok(Real(RawTotal(rewards.entries) as real / MULTIPLIER as real))
  {
    match rewards
    case List(es) =>
      if |es| == 0 then Ok(Int(0))
      else
        if IntegerAmounts(es) then AmountsTotalOfIntegers(es); Ok(Real(AmountsTotal(es).value))
        else (match AmountsTotal(es)
          case Err(e) => Err(e)
          case Ok(t) => Ok(Real(t)))
    case Str(s) => if |s| == 0 then Ok(Int(0)) else Err(TypeError)
    case _ => Err(TypeError)
  }

  /** Assigning `reward_total` from the record's `rewards`. */
  function AddRewardTotal(rec: Record): Applied {
    match Get(rec, "rewards")
    case None => Applied(rec, Raised(KeyError("rewards")))
    case Some(rewards) =>
      match RewardTotal(rewards)
      case Err(e) => Applied(rec, Raised(e))
      case Ok(t) => Applied(Set(rec, "reward_total", t), Done)
  }

  /** One pass of the loop body of `compile_rewards_per_block`. When the
      activity came from the cache, the textual `rewards` is first replaced by
      its parse (`ast.literal_eval`, supplied as `parse`): text that does not
      parse raises the parser's error (SyntaxError for malformed text), and a
      value that is not text raises ValueError. */
  function CompileBlock(rec: Record, cached: bool, parse: string -> Result<Value>): Applied {
    if !cached then AddRewardTotal(rec)
    else
      match Get(rec, "rewards")
      case None => Applied(rec, Raised(KeyError("rewards")))
      case Some(Str(text)) =>
        (match parse(text)
         case Err(e) => Applied(rec, Raised(e))
         case Ok(v) => AddRewardTotal(Set(rec, "rewards", v)))
      case Some(_) => Applied(rec, Raised(ValueError))
  }

  function Compiler(cached: bool, parse: string -> Result<Value>): Record -> Applied {
    rec => CompileBlock(rec, cached, parse)
  }

  /** Applying the loop body is running one pass. */
  lemma CompilerApplies(rec: Record, cached: bool, parse: string -> Result<Value>)
    ensures Compiler(cached, parse)(rec) == CompileBlock(rec, cached, parse)
  {
  }

  /** The rewards a finished pass summed: the stored ones, or their parse. */
  function SummedRewards(rec: Record, cached: bool, parse: string -> Result<Value>): Option<Value> {
    if !cached then Get(rec, "rewards")
    else match Get(rec, "rewards")
      case Some(Str(text)) => if parse(text).Ok? then Some(parse(text).value) else None
      case _ => None
  }

  /** `out` is `rec` after a finished pass: it holds `reward_total` equal to
      the sum of its rewards and its (parsed) `rewards`, every other key as
      before; a dict stays a dict, its key order the old one with
      `reward_total` appended if it was new. */
  ghost predicate AggregatedFrom(out: Record, rec: Record, cached: bool, parse: string -> Result<Value>) {
    var rewards := SummedRewards(rec, cached, parse);
    && rewards.Some?
    && RewardTotal(rewards.value).Ok?
    && Get(out, "reward_total") == Some(RewardTotal(rewards.value).value)
    && Get(out, "rewards") == rewards
    && (forall k :: k != "reward_total" && k != "rewards" ==> Get(out, k) == Get(rec, k))
    && (IsDict(rec) ==>
          IsDict(out) && out.keys == WithKey(rec.keys, "reward_total"))
  }

  /** A finished pass over one record does what AggregatedFrom says. */
  lemma CompileBlockMeaning(rec: Record, cached: bool, parse: string -> Result<Value>)
    requires CompileBlock(rec, cached, parse).outcome.Done?
    ensures AggregatedFrom(CompileBlock(rec, cached, parse).rec, rec, cached, parse)
  {
    if cached {
      var text := Get(rec, "rewards").value.s;
      var parsed := Set(rec, "rewards", parse(text).value);
      assert CompileBlock(rec, cached, parse) == AddRewardTotal(parsed);
      if IsDict(rec) {
        SetKeepsDict(rec, "rewards", parse(text).value);
        SetKeepsDict(parsed, "reward_total", RewardTotal(parse(text).value).value);
      }
    } else if IsDict(rec) {
      SetKeepsDict(rec, "reward_total", RewardTotal(Get(rec, "rewards").value).value);
    }
  }

  /** After a finished aggregation the list has the same length and order, and
      every record is its old self aggregated. */
  lemma AggregationMeaning(recs: seq<Record>, cached: bool, parse: string -> Result<Value>)
    requires UpdateEach(recs, Compiler(cached, parse)).outcome.Done?
    ensures |UpdateEach(recs, Compiler(cached, parse)).records| == |recs|
    ensures forall i :: 0 <= i < |recs| ==>
              AggregatedFrom(UpdateEach(recs, Compiler(cached, parse)).records[i], recs[i], cached, parse)
  {
    var body := Compiler(cached, parse);
    forall i | 0 <= i < |recs|
      ensures AggregatedFrom(UpdateEach(recs, body).records[i], recs[i], cached, parse)
    {
      UpdateEachDone(recs, body, i);
      assert body(recs[i]) == CompileBlock(recs[i], cached, parse);
      CompileBlockMeaning(recs[i], cached, parse);
    }
  }

  /** After a finished aggregation, record i is its own aggregated self. */
  lemma AggregatedRecord(recs: seq<Record>, cached: bool, parse: string -> Result<Value>, i: int)
    requires UpdateEach(recs, Compiler(cached, parse)).outcome.Done? && 0 <= i < |recs|
    ensures CompileBlock(recs[i], cached, parse).outcome.Done?
    ensures UpdateEach(recs, Compiler(cached, parse)).records[i] == CompileBlock(recs[i], cached, parse).rec
  {
    UpdateEachDone(recs, Compiler(cached, parse), i);
    CompilerApplies(recs[i], cached, parse);
  }

  /** On activity fetched from the API, aggregating a second time reproduces
      the same records: the totals are a function of the untouched `rewards`. */
  lemma AggregationIdempotent(recs: seq<Record>, parse: string -> Result<Value>)
    requires UpdateEach(recs, Compiler(false, parse)).outcome.Done?
    ensures UpdateEach(UpdateEach(recs, Compiler(false, parse)).records, Compiler(false, parse))
            == UpdateEach(recs, Compiler(false, parse))
  {
    var body := Compiler(false, parse);
    forall r | body(r).outcome.Done? ensures body(body(r).rec) == body(r) {
      var rewards := Get(r, "rewards").value;
      var t := RewardTotal(rewards).value;
      SetTwice(r, "reward_total", t);
    }
    UpdateEachTwice(recs, body);
  }

  /** The error `ast.literal_eval` raises on the `rewards` of an aggregated
      record: SyntaxError on the empty string, ValueError on anything that is
      not text. */
  function RerunError(rec: Record): Error {
    if Get(rec, "rewards") == Some(Str("")) then SyntaxError else ValueError
  }

  /** A cached record that was aggregated cannot be aggregated again: its
      `rewards` now holds the parse, which is a list (not text: ValueError)
      unless it was the empty string, whose `literal_eval` raises SyntaxError. */
  lemma CompileBlockNotRepeatable(rec: Record, parse: string -> Result<Value>)
    requires parse("") == Err(SyntaxError)
    requires CompileBlock(rec, true, parse).outcome.Done?
    ensures CompileBlock(CompileBlock(rec, true, parse).rec, true, parse).outcome ==
              Raised(RerunError(CompileBlock(rec, true, parse).rec))
  {
    CompileBlockMeaning(rec, true, parse);
    var rewards := SummedRewards(rec, true, parse).value;
    assert rewards.List? || rewards == Str("");
  }

  /** On cached activity the aggregation cannot be repeated: once `rewards`
      holds the parsed value, the second run raises at the first record, with
      SyntaxError when that record's rewards parsed to the empty string and
      ValueError otherwise. */
  lemma CachedAggregationNotRepeatable(recs: seq<Record>, parse: string -> Result<Value>)
    requires |recs| > 0 && parse("") == Err(SyntaxError)
    requires UpdateEach(recs, Compiler(true, parse)).outcome.Done?
    ensures var once := UpdateEach(recs, Compiler(true, parse)).records;
            UpdateEach(once, Compiler(true, parse)).outcome == Raised(RerunError(once[0]))
  {
    var body := Compiler(true, parse);
    var once := UpdateEach(recs, body).records;
    AggregatedRecord(recs, true, parse, 0);
    CompileBlockNotRepeatable(recs[0], parse);
    CompilerApplies(once[0], true, parse);
    RerunRaisesFirst(recs, body);
  }
}
