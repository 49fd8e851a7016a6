/** The activity fetch of `get_transactions_for_account`: paging through the
    account's activity and keeping the reward entries. The HTTP service is
    replaced by the sequence of responses it would give to the successive
    requests. */
module Fetch {
  import opened Records

  /** One HTTP response of the activity endpoint: success status, the `data`
      batch, and the `cursor` key when present. */
  datatype Response = Response(ok: bool, data: seq<Record>, cursor: Option<string>)

  /** The paging loop goes on only past a successful response carrying a cursor. */
  predicate Continues(r: Response) {
    r.ok && r.cursor.Some?
  }

  /** Some response stops the paging loop (otherwise the source never returns). */
  predicate Terminates(rs: seq<Response>) {
    exists i :: 0 <= i < |rs| && !Continues(rs[i])
  }

  /** The entries the paging loop accumulates: the data of each response up to,
      and not including, the first one that fails or has no cursor. */
  function Collected(rs: seq<Response>): seq<Record> {
    if |rs| == 0 || !Continues(rs[0]) then [] else rs[0].data + Collected(rs[1..])
  }

  /** The data of all the given responses, in request order. */
  function Concat(rs: seq<Response>): seq<Record> {
    if |rs| == 0 then [] else Concat(rs[..|rs| - 1]) + rs[|rs| - 1].data
  }

  lemma {:induction false} ConcatCons(r: Response, rs: seq<Response>)
    ensures Concat([r] + rs) == r.data + Concat(rs)
    decreases |rs|
  {
    if |rs| > 0 {
      assert ([r] + rs)[..|rs|] == [r] + rs[..|rs| - 1];
      ConcatCons(r, rs[..|rs| - 1]);
    }
  }

  /** The accumulated activity is the in-order concatenation of the data of the
      longest prefix of responses that all succeed and all carry a cursor; the
      response that ends the loop contributes nothing. */
  lemma {:induction false} CollectedIsContinuingPrefix(rs: seq<Response>, n: int)
    requires 0 <= n <= |rs|
    requires forall j :: 0 <= j < n ==> Continues(rs[j])
    requires n == |rs| || !Continues(rs[n])
    ensures Collected(rs) == Concat(rs[..n])
  {
    if n > 0 {
      CollectedIsContinuingPrefix(rs[1..], n - 1);
      assert rs[..n] == [rs[0]] + rs[1..][..n - 1];
      ConcatCons(rs[0], rs[1..][..n - 1]);
    }
  }

  /** The `type` test of the reward filter: `"reward" in item["type"]`. A
      missing key raises KeyError; a number or None raises TypeError; on a list
      the test is list membership, which no dict entry satisfies. */
  function IsRewardEntry(item: Record): (r: Result<bool>)
    ensures Get(item, "type").None? ==> r == Err(KeyError("type"))
    ensures Get(item, "type").Some? && Get(item, "type").value.Str? ==>
              r == Ok(Contains(Get(item, "type").value.s, "reward"))
    ensures Get(item, "type").Some? && Get(item, "type").value.List? ==> r == Ok(false)
    ensures Get(item, "type").Some? && (Get(item, "type").value.Int? || Get(item, "type").value.Real? || Get(item, "type").value.Null?) ==>
              r == Err(TypeError)
  {
    match Get(item, "type")
    case None => Err(KeyError("type"))
    case Some(Str(s)) => Ok(Contains(s, "reward"))
    case Some(List(_)) => Ok(false)
    case Some(_) => Err(TypeError)
  }

  /** `[item for item in activity if "reward" in item["type"]]`. */
  function RewardEntries(activity: seq<Record>): (r: Result<seq<Record>>)
    ensures r.Ok? <==> forall i :: 0 <= i < |activity| ==> IsRewardEntry(activity[i]).Ok?
  {
    if |activity| == 0 then Ok([])
    else
      match IsRewardEntry(activity[0])
      case Err(e) => Err(e)
      case Ok(keep) =>
        var rest := RewardEntries(activity[1..]);
        assert forall i :: 1 <= i < |activity| ==> activity[i] == activity[1..][i - 1];
        if rest.Err? then Err(rest.error)
        else if keep then Ok([activity[0]] + rest.value)
        else Ok(rest.value)
  }

  /** The filter keeps exactly the entries whose `type` contains "reward". */
  lemma {:induction false} RewardEntriesMembers(activity: seq<Record>)
    requires RewardEntries(activity).Ok?
    ensures forall x :: x in RewardEntries(activity).value <==> x in activity && IsRewardEntry(x) == Ok(true)
  {
    if |activity| > 0 {
      RewardEntriesMembers(activity[1..]);
      assert activity == [activity[0]] + activity[1..];
    }
  }

  /** A failing filter raises the error of the first entry whose `type` test
      fails, every entry before it having been tested without error. */
  lemma {:induction false} RewardEntriesFirstError(activity: seq<Record>)
    requires RewardEntries(activity).Err?
    ensures exists k :: 0 <= k < |activity| && IsRewardEntry(activity[k]) == Err(RewardEntries(activity).error)
                          && forall i :: 0 <= i < k ==> IsRewardEntry(activity[i]).Ok?
  {
    if IsRewardEntry(activity[0]).Ok? {
      var tail := activity[1..];
      RewardEntriesFirstError(tail);
      var k :| 0 <= k < |tail| && IsRewardEntry(tail[k]) == Err(RewardEntries(tail).error)
               && forall i :: 0 <= i < k ==> IsRewardEntry(tail[i]).Ok?;
      assert forall i :: 0 <= i < |tail| ==> tail[i] == activity[i + 1];
      assert IsRewardEntry(activity[k + 1]) == Err(RewardEntries(activity).error);
    }
  }

  /** The filter on an entry followed by a list it accepts. */
  lemma RewardEntriesCons(x: Record, rest: seq<Record>)
    requires IsRewardEntry(x).Ok? && RewardEntries(rest).Ok?
    ensures RewardEntries([x] + rest) ==
              Ok((if IsRewardEntry(x).value then [x] else []) + RewardEntries(rest).value)
  {
    var xs := [x] + rest;
    assert xs[0] == x && xs[1..] == rest;
    assert [] + RewardEntries(rest).value == RewardEntries(rest).value;
  }

  /** The filter keeps the original order: filtering a concatenation is
      concatenating the filtered parts. */
  lemma {:induction false} RewardEntriesAppend(a: seq<Record>, b: seq<Record>)
    requires RewardEntries(a).Ok? && RewardEntries(b).Ok?
    ensures RewardEntries(a + b) == Ok(RewardEntries(a).value + RewardEntries(b).value)
  {
    var rb := RewardEntries(b).value;
    if |a| == 0 {
      assert a + b == b;
      assert [] + rb == rb;
    } else {
      var x, tail := a[0], a[1..];
      assert a == [x] + tail;
      assert a + b == [x] + (tail + b);
      assert IsRewardEntry(x).Ok? && RewardEntries(tail).Ok? by {
        assert forall i :: 0 <= i < |tail| ==> tail[i] == a[i + 1];
      }
      RewardEntriesAppend(tail, b);
      RewardEntriesCons(x, tail);
      RewardEntriesCons(x, tail + b);
      var kept: seq<Record> := if IsRewardEntry(x).value then [x] else [];
      assert kept + (RewardEntries(tail).value + rb) == (kept + RewardEntries(tail).value) + rb;
    }
  }

  /** Filtering what the filter kept keeps all of it: the filtered list holds
      only reward entries. */
  lemma {:induction false} RewardEntriesIdempotent(activity: seq<Record>)
    requires RewardEntries(activity).Ok?
    ensures RewardEntries(RewardEntries(activity).value) == RewardEntries(activity)
  {
    if |activity| > 0 {
      RewardEntriesIdempotent(activity[1..]);
      if IsRewardEntry(activity[0]) == Ok(true) {
        var kept := RewardEntries(activity).value;
        assert kept[0] == activity[0];
        assert kept[1..] == RewardEntries(activity[1..]).value;
      }
    }
  }

  /** What the fetch stage loads: the cached rows as they are, or the reward
      entries of the pages the API returned. */
  function Fetched(cache: Option<seq<Record>>, responses: seq<Response>): (r: Result<seq<Record>>)
    ensures cache.Some? ==> r == Ok(cache.value)
    ensures cache.None? ==> r == RewardEntries(Collected(responses))
    ensures cache.None? && r.Ok? ==> forall x :: x in r.value ==> IsRewardEntry(x) == Ok(true)
  {
    match cache
    case Some(rows) => Ok(rows)
    case None =>
      var r := RewardEntries(Collected(responses));
      if r.Ok? then RewardEntriesMembers(Collected(responses)); r else r
  }

  /** Two successful pages, the first with a cursor and the second without:
      only the first page's entries are collected, since the page that ends
      the loop is never added. */
  lemma LastPageDropped(first: seq<Record>, last: seq<Record>, c: string)
    ensures Collected([Response(true, first, Some(c)), Response(true, last, None)]) == first
  {
    var rs := [Response(true, first, Some(c)), Response(true, last, None)];
    assert rs[1..][0] == Response(true, last, None);
    assert first + [] == first;
  }
}
