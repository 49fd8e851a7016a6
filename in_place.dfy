/** The shape shared by the loops that update the records one by one
    (`for idx, block in enumerate(self.reward_activity): ...`): each record is
    replaced by the result of the loop body, and the first exception ends the
    loop, leaving the records after it untouched. */
module InPlace {
  import opened Records

  /** What one pass of the loop body leaves in the record, and how it ended. */
  datatype Applied = Applied(rec: Record, outcome: Outcome)

  /** The record list after the loop, and how the loop ended. */
  datatype Sweep = Sweep(records: seq<Record>, outcome: Outcome)

  function UpdateEach(recs: seq<Record>, body: Record -> Applied): (s: Sweep)
    ensures |s.records| == |recs|
  {
    if |recs| == 0 then Sweep([], Done)
    else
      var a := body(recs[0]);
      if a.outcome.Raised? then Sweep([a.rec] + recs[1..], a.outcome)
      else
        var rest := UpdateEach(recs[1..], body);
        Sweep([a.rec] + rest.records, rest.outcome)
  }

  /** The loop finishes exactly when every record's pass finishes, and then each
      record is what its own pass left. */
  lemma {:induction false} UpdateEachFinished(recs: seq<Record>, body: Record -> Applied)
    ensures UpdateEach(recs, body).outcome.Done? <==> forall i :: 0 <= i < |recs| ==> body(recs[i]).outcome.Done?
    ensures UpdateEach(recs, body).outcome.Done? ==>
              forall i :: 0 <= i < |recs| ==> UpdateEach(recs, body).records[i] == body(recs[i]).rec
  {
    if |recs| > 0 {
      var s := UpdateEach(recs, body);
      if body(recs[0]).outcome.Done? {
        var tail := recs[1..];
        UpdateEachFinished(tail, body);
        assert s.records[1..] == UpdateEach(tail, body).records;
        assert forall i :: 1 <= i < |recs| ==> recs[i] == tail[i - 1];
      }
    }
  }

  /** When record k is the first whose pass raises, the loop raises that
      pass's error, with the records before it updated, record k as its pass
      left it, and the records after it unchanged. */
  lemma UpdateEachRaised(recs: seq<Record>, body: Record -> Applied, k: int)
    requires FirstRaise(recs, body, k)
    ensures UpdateEach(recs, body).outcome == body(recs[k]).outcome
    ensures UpdateEach(recs, body).records[k] == body(recs[k]).rec
    ensures UpdateEach(recs, body).records[k + 1..] == recs[k + 1..]
    ensures forall i :: 0 <= i < k ==> UpdateEach(recs, body).records[i] == body(recs[i]).rec
  {
    var pre := recs[..k];
    assert forall i :: 0 <= i < k ==> pre[i] == recs[i];
    UpdateEachFinished(pre, body);
    UpdateEachStep(recs, k, body);
    UpdateEachStop(recs, k + 1, body);
  }

  /** Record k is the first whose pass raises. */
  ghost predicate FirstRaise(recs: seq<Record>, body: Record -> Applied, k: int) {
    0 <= k < |recs| && body(recs[k]).outcome.Raised?
    && forall i :: 0 <= i < k ==> body(recs[i]).outcome.Done?
  }

  /** Running the loop over `a + b` is running it over `a` and, when that
      finished, over `b`. */
  lemma {:induction false} UpdateEachAppend(a: seq<Record>, b: seq<Record>, body: Record -> Applied)
    ensures UpdateEach(a, body).outcome.Done? ==>
              UpdateEach(a + b, body) == Sweep(UpdateEach(a, body).records + UpdateEach(b, body).records, UpdateEach(b, body).outcome)
    ensures UpdateEach(a, body).outcome.Raised? ==>
              UpdateEach(a + b, body) == Sweep(UpdateEach(a, body).records + b, UpdateEach(a, body).outcome)
  {
    if |a| == 0 {
      assert a + b == b;
    } else {
      var first := body(a[0]);
      assert (a + b)[0] == a[0];
      assert (a + b)[1..] == a[1..] + b;
      if first.outcome.Done? {
        UpdateEachAppend(a[1..], b, body);
        var rest, tail := UpdateEach(a[1..], body).records, UpdateEach(b, body).records;
        assert [first.rec] + (rest + tail) == ([first.rec] + rest) + tail;
      } else {
        assert [first.rec] + (a[1..] + b) == ([first.rec] + a[1..]) + b;
      }
    }
  }

  /** When a second pass over what a finished pass left changes nothing, the
      whole loop can be run twice with the same result. */
  lemma {:induction false} UpdateEachTwice(recs: seq<Record>, body: Record -> Applied)
    requires UpdateEach(recs, body).outcome.Done?
    requires forall r :: body(r).outcome.Done? ==> body(body(r).rec) == body(r)
    ensures UpdateEach(UpdateEach(recs, body).records, body) == UpdateEach(recs, body)
  {
    if |recs| > 0 {
      var s := UpdateEach(recs, body);
      var rest := UpdateEach(recs[1..], body);
      UpdateEachTwice(recs[1..], body);
      assert s.records[0] == body(recs[0]).rec;
      assert s.records[1..] == rest.records;
    }
  }

  /** One more step of a loop that has finished so far. */
  lemma UpdateEachStep(recs: seq<Record>, i: int, body: Record -> Applied)
    requires 0 <= i < |recs|
    requires UpdateEach(recs[..i], body).outcome.Done?
    ensures UpdateEach(recs[..i + 1], body) ==
              Sweep(UpdateEach(recs[..i], body).records + [body(recs[i]).rec], body(recs[i]).outcome)
  {
    assert recs[..i + 1] == recs[..i] + [recs[i]];
    assert [recs[i]][1..] == [];
    UpdateEachAppend(recs[..i], [recs[i]], body);
  }

  /** Once a prefix of the records raised, the rest are left as they are. */
  lemma UpdateEachStop(recs: seq<Record>, k: int, body: Record -> Applied)
    requires 0 <= k <= |recs|
    requires UpdateEach(recs[..k], body).outcome.Raised?
    ensures UpdateEach(recs, body) ==
              Sweep(UpdateEach(recs[..k], body).records + recs[k..], UpdateEach(recs[..k], body).outcome)
  {
    TakeDrop(recs, k);
    UpdateEachAppend(recs[..k], recs[k..], body);
  }

  /** Running a finished loop a second time raises at the first record when
      that record's pass, repeated, raises. */
  lemma RerunRaisesFirst(recs: seq<Record>, body: Record -> Applied)
    requires |recs| > 0 && UpdateEach(recs, body).outcome.Done?
    requires body(body(recs[0]).rec).outcome.Raised?
    ensures UpdateEach(UpdateEach(recs, body).records, body).outcome == body(UpdateEach(recs, body).records[0]).outcome
  {
    UpdateEachDone(recs, body, 0);
  }

  /** In a finished loop, record i is what its own pass left. */
  lemma UpdateEachDone(recs: seq<Record>, body: Record -> Applied, i: int)
    requires UpdateEach(recs, body).outcome.Done? && 0 <= i < |recs|
    ensures body(recs[i]).outcome.Done? && UpdateEach(recs, body).records[i] == body(recs[i]).rec
  {
    UpdateEachFinished(recs, body);
  }

  /** One iteration of a loop that replaces `cur[i]` by its pass's result, where
      `cur` holds the updated records before i and the original ones from i on:
      either the invariant moves to i + 1, or the loop has raised with the
      final list. */
  lemma LoopStep(recs: seq<Record>, cur: seq<Record>, i: int, body: Record -> Applied)
    requires 0 <= i < |recs| == |cur|
    requires UpdateEach(recs[..i], body) == Sweep(cur[..i], Done)
    requires cur[i..] == recs[i..]
    ensures body(recs[i]) == body(cur[i])
    ensures body(cur[i]).outcome.Done? ==>
              UpdateEach(recs[..i + 1], body) == Sweep(cur[i := body(cur[i]).rec][..i + 1], Done)
              && cur[i := body(cur[i]).rec][i + 1..] == recs[i + 1..]
    ensures body(cur[i]).outcome.Raised? ==>
              UpdateEach(recs, body) == Sweep(cur[i := body(cur[i]).rec], body(cur[i]).outcome)
  {
    assert cur[i] == cur[i..][0] == recs[i];
    var a := body(recs[i]);
    var next := cur[i := a.rec];
    UpdateEachStep(recs, i, body);
    assert next[..i + 1] == cur[..i] + [a.rec];
    assert next[i + 1..] == cur[i + 1..] == recs[i + 1..];
    if a.outcome.Raised? {
      UpdateEachStop(recs, i + 1, body);
      TakeDrop(next, i + 1);
    }
  }

  lemma TakeDrop(recs: seq<Record>, k: int)
    requires 0 <= k <= |recs|
    ensures recs[..k] + recs[k..] == recs
  {
  }
}
