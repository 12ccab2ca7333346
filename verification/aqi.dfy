/** The air-quality cache (src/aqi.rs): a background task refreshes an index
    every half hour; the status cycle only reads the latest stored value. */
module Aqi {
  import opened Errors
  import opened Ints
  import opened Decimal
  import opened SwayBar

  /** The shared cell; 0 means no index is known. */
  datatype AqiCache = AqiCache(aqi: u32)

  /** The cell as `AqiFetcher::new` creates it. */
  const INITIAL: AqiCache := AqiCache(0)

  /** `get_aqi`: without the API key the feature is off and the fetch yields 0;
      otherwise the result of the request and decode, abstracted as `reply`. */
  function FetchAqi(key: Option<string>, reply: Result<u32>): (r: Result<u32>)
    ensures key.None? ==> r == Ok(0)
    ensures key.Some? ==> r == reply
  {
    match key
    case None => Ok(0)
    case Some(_) => reply
  }

  /** One round of the refresher loop: a successful fetch is stored, a failed one
      leaves the cell as it was. */
  function Refresh(c: AqiCache, fetched: Result<u32>): (c': AqiCache)
    ensures fetched.Ok? ==> c'.aqi == fetched.value
    ensures fetched.Err? ==> c' == c
  {
    if fetched.Ok? then AqiCache(fetched.value) else c
  }

  /** `get`: the "aqi" block with min_width 9 when an index is known, else none.
      Reading never changes the cell (the function only receives a copy). */
  function Get(c: AqiCache): (b: Option<Block>)
    ensures b.Some? <==> c.aqi > 0
    ensures b.Some? ==> b.value == Block("aqi", "AQI: " + NatToString(c.aqi), Some(9), None, None)
  {
    if c.aqi > 0 then Some(Block("aqi", "AQI: " + NatToString(c.aqi), Some(9), None, None))
    else None
  }

  /** The refresher after a sequence of fetch outcomes. */
  function RunRefresher(c: AqiCache, fetches: seq<Result<u32>>): AqiCache
    decreases |fetches|
  {
    if |fetches| == 0 then c else RunRefresher(Refresh(c, fetches[0]), fetches[1..])
  }

  /** Reference definition: the value of the last successful fetch, if any. */
  function LastOk(fetches: seq<Result<u32>>): Option<u32> {
    if |fetches| == 0 then None
    else if fetches[|fetches| - 1].Ok? then Some(fetches[|fetches| - 1].value)
    else LastOk(fetches[..|fetches| - 1])
  }

  lemma {:induction false} RunRefresherAppend(c: AqiCache, fetches: seq<Result<u32>>, f: Result<u32>)
    ensures RunRefresher(c, fetches + [f]) == Refresh(RunRefresher(c, fetches), f)
    decreases |fetches|
  {
    if |fetches| == 0 {
      assert fetches + [f] == [f];
    } else {
      assert (fetches + [f])[1..] == fetches[1..] + [f];
      RunRefresherAppend(Refresh(c, fetches[0]), fetches[1..], f);
    }
  }

  /** Stale-but-valid: the cell holds the last successfully fetched value, or what
      it held before when no fetch succeeded. */
  lemma {:induction false} CacheHoldsLastSuccess(c: AqiCache, fetches: seq<Result<u32>>)
    ensures RunRefresher(c, fetches).aqi == LastOk(fetches).GetOr(c.aqi)
    decreases |fetches|
  {
    if |fetches| > 0 {
      var init := fetches[..|fetches| - 1];
      assert fetches == init + [fetches[|fetches| - 1]];
      RunRefresherAppend(c, init, fetches[|fetches| - 1]);
      CacheHoldsLastSuccess(c, init);
    }
  }

  /** The block is shown exactly when some fetch succeeded and the last successful
      one returned a positive index; in particular never before the first fetch. */
  lemma BlockShownIffLastSuccessPositive(fetches: seq<Result<u32>>)
    ensures Get(RunRefresher(INITIAL, fetches)).Some? <==>
      LastOk(fetches).Some? && LastOk(fetches).value > 0
  {
    CacheHoldsLastSuccess(INITIAL, fetches);
  }

  /** Without an API key every fetch stores 0, so the block never appears. */
  lemma NoKeyNoBlock(c: AqiCache, replies: seq<Result<u32>>)
    ensures var fetches := seq(|replies|, i requires 0 <= i < |replies| => FetchAqi(None, replies[i]));
      |replies| > 0 ==> Get(RunRefresher(c, fetches)) == None
  {
    var fetches := seq(|replies|, i requires 0 <= i < |replies| => FetchAqi(None, replies[i]));
    CacheHoldsLastSuccess(c, fetches);
    if |replies| > 0 {
      assert fetches[|fetches| - 1] == Ok(0);
    }
  }
}
