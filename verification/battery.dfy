/** Battery state (src/battery.rs): BAT0's energy counters and status, classified
    into an emoji and a warning colour. */
module Battery {
  import opened Errors
  import opened Ints
  import opened Decimal
  import opened SwayBar

  /* The three symbols are the characters src/battery.rs:10-12 spells out: the
     Windows-1252 reading of the UTF-8 bytes of U+26A1 U+FE0E (high voltage),
     U+1F50B (battery) and U+1FAAB (low battery). */
  const EMOJI_CHARGING: string := "\U{00E2}\U{0161}\U{00A1}\U{00EF}\U{00B8}\U{017D}"
  const EMOJI_BATTERY_GOOD: string := "\U{00F0}\U{0178}\U{201D}\U{2039}"
  const EMOJI_BATTERY_EMPTY: string := "\U{00F0}\U{0178}\U{00AA}\U{00AB}"

  /** An `f64` number of hours: a finite value, an infinity (a zero power draw)
      or NaN (zero energy over zero power). */
  datatype Hours = Finite(h: real) | PosInf | NegInf | NaN

  /** IEEE `time_left < 0.5`: false for NaN and for positive infinity. */
  predicate BelowHalfHour(t: Hours) {
    match t
    case Finite(h) => h < 0.5
    case NegInf => true
    case _ => false
  }

  /** Every status other than exactly "Discharging" (Charging, Full, Not charging,
      Unknown, ...) counts as charging. */
  predicate IsCharging(status: string) {
    status != "Discharging"
  }

  /** `time_left`: the power quotient of the running branch, except that a
      discharging battery at or above its design energy has no time left. */
  function TimeLeft(charging: bool, now: u64, full: u64, quotient: Hours): (t: Hours)
    ensures !charging && now >= full ==> t == Finite(0.0)
    ensures charging || now < full ==> t == quotient
  {
    if charging then quotient
    else if now >= full then Finite(0.0)
    else quotient
  }

  /** The emoji and colour table of `get_battery`. */
  function Classify(charging: bool, timeLeft: Hours, percent: nat): (r: (string, Option<string>))
    ensures charging ==> r == (EMOJI_CHARGING, None)
    ensures !charging && BelowHalfHour(timeLeft) ==> r == (EMOJI_BATTERY_EMPTY, Some(COLOR_RED))
    ensures !charging && !BelowHalfHour(timeLeft) ==>
      && (percent > 60 ==> r == (EMOJI_BATTERY_GOOD, None))
      && (30 < percent <= 60 ==> r == (EMOJI_BATTERY_GOOD, Some(COLOR_YELLOW)))
      && (percent <= 30 ==> r == (EMOJI_BATTERY_EMPTY, Some(COLOR_RED)))
  {
    if charging then (EMOJI_CHARGING, None)
    else if BelowHalfHour(timeLeft) then (EMOJI_BATTERY_EMPTY, Some(COLOR_RED))
    else if percent > 60 then (EMOJI_BATTERY_GOOD, None)
    else if percent > 30 then (EMOJI_BATTERY_GOOD, Some(COLOR_YELLOW))
    else (EMOJI_BATTERY_EMPTY, Some(COLOR_RED))
  }

  /** The table read by colour: red exactly when discharging with under half an
      hour left or at most 30%; yellow exactly when discharging with time left and
      31..60%; the empty emoji goes with red and with nothing else. */
  lemma ClassifyByColour(charging: bool, t: Hours, percent: nat)
    ensures var (emoji, color) := Classify(charging, t, percent);
      && (color == Some(COLOR_RED) <==> !charging && (BelowHalfHour(t) || percent <= 30))
      && (color == Some(COLOR_YELLOW) <==> !charging && !BelowHalfHour(t) && 30 < percent <= 60)
      && (color == None <==> charging || (!BelowHalfHour(t) && percent > 60))
      && (emoji == EMOJI_BATTERY_EMPTY <==> color == Some(COLOR_RED))
  {
  }

  /** What the sysfs files and the floating-point steps yield for one reading. */
  datatype BatteryReadings = BatteryReadings(
    present: bool,            // the BAT0 directory exists
    energyNow: Result<u64>,
    energyFull: Result<u64>,  // energy_full_design
    status: Result<string>,
    powerNow: Result<i64>,
    percent: u64,             // the f64 percentage truncated to an integer
    quotient: Hours,          // the f64 energy / power quotient of the running branch
    clock: string)            // the hours and minutes rendered as "hh:mm"

  /** `get_battery`: no block without a battery; otherwise the first failing read,
      or the "battery" block with min_width 12 and the table's emoji and colour. */
  function GetBattery(r: BatteryReadings): (res: Result<Option<Block>>)
    ensures !r.present ==> res == Ok(None)
    ensures r.present ==>
      (res.Ok? <==> r.energyNow.Ok? && r.energyFull.Ok? && r.status.Ok? && r.powerNow.Ok?)
    ensures r.present && r.energyNow.Err? ==> res == Err(r.energyNow.error)
    ensures r.present && r.energyNow.Ok? && r.energyFull.Err? ==> res == Err(r.energyFull.error)
    ensures r.present && r.energyNow.Ok? && r.energyFull.Ok? && r.status.Err? ==>
      res == Err(r.status.error)
    ensures r.present && r.energyNow.Ok? && r.energyFull.Ok? && r.status.Ok? && r.powerNow.Err? ==>
      res == Err(r.powerNow.error)
    ensures r.present && res.Ok? ==>
      var charging := IsCharging(r.status.value);
      var t := TimeLeft(charging, r.energyNow.value, r.energyFull.value, r.quotient);
      var (emoji, color) := Classify(charging, t, r.percent);
      && res.value.Some?
      && res.value.value.name == "battery"
      && res.value.value.minWidth == Some(12)
      && res.value.value.color == color
      && res.value.value.fullText == emoji + ": " + NatToString(r.percent) + "% " + r.clock
  {
    if !r.present then Ok(None)
    else
      var now :- r.energyNow;
      var full :- r.energyFull;
      var status :- r.status;
      var charging := IsCharging(status);
      var _ :- r.powerNow;
      var t := TimeLeft(charging, now, full, r.quotient);
      var (emoji, color) := Classify(charging, t, r.percent);
      Ok(Some(Block("battery", emoji + ": " + NatToString(r.percent) + "% " + r.clock,
                    Some(12), None, color)))
  }

  /** A discharging battery at or above its design energy shows the empty emoji
      in red, whatever the power draw and percentage. */
  lemma FullButDischargingIsRed(r: BatteryReadings)
    requires r.present && r.energyNow.Ok? && r.energyFull.Ok? && r.powerNow.Ok?
    requires r.status == Ok("Discharging")
    requires r.energyNow.value >= r.energyFull.value
    ensures GetBattery(r).Ok? && GetBattery(r).value.Some?
    ensures GetBattery(r).value.value.color == Some(COLOR_RED)
    ensures EMOJI_BATTERY_EMPTY <= GetBattery(r).value.value.fullText
  {
  }

  /** Charging shows the charging emoji without colour, whatever the time and
      percentage. */
  lemma ChargingIsUncoloured(r: BatteryReadings)
    requires r.present && r.energyNow.Ok? && r.energyFull.Ok? && r.powerNow.Ok?
    requires r.status.Ok? && r.status.value != "Discharging"
    ensures GetBattery(r).Ok? && GetBattery(r).value.Some?
    ensures GetBattery(r).value.value.color == None
    ensures EMOJI_CHARGING <= GetBattery(r).value.value.fullText
  {
  }
}
