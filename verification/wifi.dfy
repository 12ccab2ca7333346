/** Wi-Fi signal strength (src/wifi.rs): the interface's signal in dBm mapped
    linearly onto 0..100% between a noise floor and a full-signal level. */
module Wifi {
  import opened Errors
  import opened Ints
  import opened Decimal
  import opened SwayBar

  /** The levels of Microsoft's `WLAN_ASSOCIATION_ATTRIBUTES`. */
  const NOISE_FLOOR_DBM: i8 := -100
  const SIGNAL_MAX_DBM: i8 := -50

  /** `f64 as u8`: truncation toward zero, saturating at both ends. */
  function RealToU8(x: real): (r: u8)
    ensures 0.0 <= x <= 255.0 ==> r == x.Floor
  {
    if x < 0.0 then 0 else if x > 255.0 then 255 else x.Floor
  }

  function Clamp(dbm: i8): (c: i8)
    ensures NOISE_FLOOR_DBM <= c <= SIGNAL_MAX_DBM
  {
    if dbm > SIGNAL_MAX_DBM then SIGNAL_MAX_DBM
    else if dbm < NOISE_FLOOR_DBM then NOISE_FLOOR_DBM
    else dbm
  }

  /** `dbm_to_percentage`. The `i8` differences lie in -50..0, so they cannot
      overflow, and the `f64` quotient is a whole number computed exactly. */
  function DbmToPercentage(dbm: i8): (p: u8)
    ensures 0 <= p <= 100
    ensures dbm >= SIGNAL_MAX_DBM ==> p == 100
    ensures dbm <= NOISE_FLOOR_DBM ==> p == 0
    ensures NOISE_FLOOR_DBM <= dbm <= SIGNAL_MAX_DBM ==> p == 2 * (dbm + 100)
  {
    var d := Clamp(dbm);
    var x := 100.0 * (NOISE_FLOOR_DBM - d) as real / (NOISE_FLOOR_DBM - SIGNAL_MAX_DBM) as real;
    assert x == (2 * (d + 100)) as real;
    RealToU8(x)
  }

  /** A stronger signal never shows a lower percentage. */
  lemma PercentageMonotone(a: i8, b: i8)
    requires a <= b
    ensures DbmToPercentage(a) <= DbmToPercentage(b)
  {
  }

  /** No colour above 50%, yellow above 25% up to 50%, red at 25% and below. */
  function WifiColor(percent: nat): (c: Option<string>)
    ensures c == None <==> percent > 50
    ensures c == Some(COLOR_YELLOW) <==> 25 < percent <= 50
    ensures c == Some(COLOR_RED) <==> percent <= 25
  {
    if percent > 50 then None
    else if percent > 25 then Some(COLOR_YELLOW)
    else Some(COLOR_RED)
  }

  /** What the netlink query says about the interface. */
  datatype WifiQuery =
    | QueryFailed(error: CliError)   // the query itself failed
    | NoInterface                    // no interface of that name
    | NoSignal                       // not wireless, or no signal reported
    | Signal(dbm: i8)

  function WifiBlock(percent: nat): Block {
    Block("wifi", "\U{1F4F6} " + NatToString(percent) + "%", None, None, WifiColor(percent))
  }

  /** `get_wifi`: a failed query is an error; without a signal the block reads
      0% in red; otherwise it shows the percentage with its colour. */
  function GetWifi(q: WifiQuery): (r: Result<Block>)
    ensures r.Err? <==> q.QueryFailed?
    ensures q.QueryFailed? ==> r == Err(q.error)
    ensures r.Ok? ==> r.value.name == "wifi" && r.value.minWidth == None
    ensures q.Signal? ==> r == Ok(WifiBlock(DbmToPercentage(q.dbm)))
    ensures (q.NoInterface? || q.NoSignal?) ==>
      r == Ok(Block("wifi", "\U{1F4F6} 0%", None, None, Some(COLOR_RED)))
  {
    match q
    case QueryFailed(e) => Err(e)
    case Signal(dbm) => Ok(WifiBlock(DbmToPercentage(dbm)))
    case _ => Ok(Block("wifi", "\U{1F4F6} 0%", None, None, Some(COLOR_RED)))
  }

  /** The fallback block is the block of a signal at the noise floor: a missing
      signal and the weakest signal look the same. */
  lemma FallbackIsNoiseFloor(q: WifiQuery)
    requires q.NoInterface? || q.NoSignal?
    ensures GetWifi(q) == GetWifi(Signal(NOISE_FLOOR_DBM))
  {
    assert DbmToPercentage(NOISE_FLOOR_DBM) == 0;
    assert NatToString(0) == "0";
    assert "\U{1F4F6} " + NatToString(0) + "%" == "\U{1F4F6} 0%";
  }
}
