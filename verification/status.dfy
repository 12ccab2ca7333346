/** One status cycle (`emit_status` in src/main.rs): the samplers' outcomes are
    assembled, in a fixed order, into the snapshot written to the bar. */
module Status {
  import opened Errors
  import opened Ints
  import opened SwayBar
  import Aqi
  import Rate
  import Wifi
  import Cpu
  import Temp
  import Sound
  import Battery

  /** The network interface whose rate and signal are shown. */
  const IFACE_NAME: string := "wlan0"

  /** Display order of the blocks, by name. */
  const SOURCE_ORDER: seq<string> := ["aqi", "rate", "wifi", "cpu", "temp", "sound", "battery", "time"]

  /** What the samplers returned in one cycle, and the clock block. */
  datatype Sampled = Sampled(
    rate: Result<Block>,
    wifi: Result<Block>,
    cpu: Result<Block>,
    temp: Result<Block>,
    sound: Result<Block>,
    battery: Result<Option<Block>>,
    time: Block)

  function OptionToSeq(b: Option<Block>): (s: seq<Block>)
    ensures |s| <= 1
  {
    match b
    case Some(x) => [x]
    case None => []
  }

  /** Every sampler that can fail succeeded. */
  predicate AllOk(s: Sampled) {
    s.rate.Ok? && s.wifi.Ok? && s.cpu.Ok? && s.temp.Ok? && s.sound.Ok? && s.battery.Ok?
  }

  /** Reference definition: the error of the first failing sampler, in call order. */
  function FirstError(s: Sampled): Option<CliError> {
    if s.rate.Err? then Some(s.rate.error)
    else if s.wifi.Err? then Some(s.wifi.error)
    else if s.cpu.Err? then Some(s.cpu.error)
    else if s.temp.Err? then Some(s.temp.error)
    else if s.sound.Err? then Some(s.sound.error)
    else if s.battery.Err? then Some(s.battery.error)
    else None
  }

  /** The blocks of `emit_status`: aqi when known, then rate, wifi, cpu, temp,
      sound, battery when present, and the time block last. The first failing
      sampler aborts the whole cycle with its error; nothing is then emitted. */
  function EmitStatus(cache: Aqi.AqiCache, s: Sampled): (r: Result<seq<Block>>)
    ensures r.Ok? <==> AllOk(s)
    ensures r.Err? ==> FirstError(s) == Some(r.error)
    ensures r.Ok? ==>
      && 6 <= |r.value| <= 8
      && r.value[|r.value| - 1] == s.time
      && r.value == OptionToSeq(Aqi.Get(cache)) +
           [s.rate.value, s.wifi.value, s.cpu.value, s.temp.value, s.sound.value] +
           OptionToSeq(s.battery.value) + [s.time]
  {
    var aqi := OptionToSeq(Aqi.Get(cache));
    var rate :- s.rate;
    var wifi :- s.wifi;
    var cpu :- s.cpu;
    var temp :- s.temp;
    var sound :- s.sound;
    var battery :- s.battery;
    Ok(aqi + [rate, wifi, cpu, temp, sound] + OptionToSeq(battery) + [s.time])
  }

  function Names(bs: seq<Block>): (ns: seq<string>)
    ensures |ns| == |bs| && forall i :: 0 <= i < |bs| ==> ns[i] == bs[i].name
  {
    if |bs| == 0 then [] else [bs[0].name] + Names(bs[1..])
  }

  /** Each successful sampler's block carries its own name. */
  predicate WellNamed(s: Sampled) {
    && (s.rate.Ok? ==> s.rate.value.name == "rate")
    && (s.wifi.Ok? ==> s.wifi.value.name == "wifi")
    && (s.cpu.Ok? ==> s.cpu.value.name == "cpu")
    && (s.temp.Ok? ==> s.temp.value.name == "temp")
    && (s.sound.Ok? ==> s.sound.value.name == "sound")
    && (s.battery.Ok? && s.battery.value.Some? ==> s.battery.value.value.name == "battery")
    && s.time.name == "time"
  }

  /** Position of a name in the display order (past the end for unknown names). */
  function Rank(name: string): nat {
    if name == "aqi" then 0
    else if name == "rate" then 1
    else if name == "wifi" then 2
    else if name == "cpu" then 3
    else if name == "temp" then 4
    else if name == "sound" then 5
    else if name == "battery" then 6
    else if name == "time" then 7
    else 8
  }

  /** `Rank` is the position in `SOURCE_ORDER`, so strictly ranked names follow
      the display order. */
  lemma RankIsOrderIndex()
    ensures forall i :: 0 <= i < |SOURCE_ORDER| ==> Rank(SOURCE_ORDER[i]) == i
  {
  }

  /** Names strictly follow the display order, so none repeats. */
  predicate StrictlyRanked(ns: seq<string>) {
    forall i, j :: 0 <= i < j < |ns| ==> Rank(ns[i]) < Rank(ns[j])
  }

  /** The names of a successful snapshot, given which optional blocks are present. */
  function ExpectedNames(withAqi: bool, withBattery: bool): seq<string> {
    (if withAqi then ["aqi"] else []) + ["rate", "wifi", "cpu", "temp", "sound"] +
    (if withBattery then ["battery"] else []) + ["time"]
  }

  lemma ExpectedNamesRanked(withAqi: bool, withBattery: bool)
    ensures StrictlyRanked(ExpectedNames(withAqi, withBattery))
  {
    var ns := ExpectedNames(withAqi, withBattery);
    forall i, j | 0 <= i < j < |ns|
      ensures Rank(ns[i]) < Rank(ns[j])
    {
      assert forall k :: 0 <= k < |ns| - 1 ==> Rank(ns[k]) < Rank(ns[k + 1]);
      RankChain(ns, i, j);
    }
  }

  lemma {:induction false} RankChain(ns: seq<string>, i: nat, j: nat)
    requires i < j < |ns|
    requires forall k :: 0 <= k < |ns| - 1 ==> Rank(ns[k]) < Rank(ns[k + 1])
    ensures Rank(ns[i]) < Rank(ns[j])
    decreases j - i
  {
    if i + 1 < j {
      RankChain(ns, i + 1, j);
    }
  }

  lemma {:induction false} NamesAppend(a: seq<Block>, b: seq<Block>)
    ensures Names(a + b) == Names(a) + Names(b)
  {
    assert |Names(a + b)| == |Names(a) + Names(b)|;
    forall i | 0 <= i < |a| + |b|
      ensures Names(a + b)[i] == (Names(a) + Names(b))[i]
    {
    }
  }

  /** A successful snapshot lists exactly the present sources in display order:
      aqi iff the cached index is known, battery iff a battery block was returned,
      every other source always, time last; so names strictly follow the display
      order and none repeats, and with both optional blocks present the names are
      the whole display order. */
  lemma SnapshotOrder(cache: Aqi.AqiCache, s: Sampled)
    requires WellNamed(s) && AllOk(s)
    ensures var bs := EmitStatus(cache, s).value;
      && Names(bs) == ExpectedNames(Aqi.Get(cache).Some?, s.battery.value.Some?)
      && StrictlyRanked(Names(bs))
      && bs[|bs| - 1].name == "time"
      && (Aqi.Get(cache).Some? && s.battery.value.Some? ==> Names(bs) == SOURCE_ORDER)
  {
    var aqi := OptionToSeq(Aqi.Get(cache));
    var mid := [s.rate.value, s.wifi.value, s.cpu.value, s.temp.value, s.sound.value];
    var bat := OptionToSeq(s.battery.value);
    var bs := EmitStatus(cache, s).value;
    assert bs == aqi + mid + bat + [s.time];
    NamesAppend(aqi + mid + bat, [s.time]);
    NamesAppend(aqi + mid, bat);
    NamesAppend(aqi, mid);
    assert Names(aqi) == (if Aqi.Get(cache).Some? then ["aqi"] else []);
    assert Names(bat) == (if s.battery.value.Some? then ["battery"] else []);
    assert Names(mid) == ["rate", "wifi", "cpu", "temp", "sound"];
    assert Names([s.time]) == ["time"];
    ExpectedNamesRanked(Aqi.Get(cache).Some?, s.battery.value.Some?);
  }

  // ---------------------------------------------------------------- sampling

  /** Everything the samplers read in one cycle. */
  datatype Readings = Readings(
    net1: Rate.CounterFiles,
    net2: Rate.CounterFiles,
    wifi: Wifi.WifiQuery,
    stat1: Result<string>,
    stat2: Result<string>,
    hwmon: Temp.Hwmon,
    wpctl: Result<string>,
    parseVolume: string -> Result<u32>,
    battery: Battery.BatteryReadings,
    clock: string)  // the local time rendered as "%Y-%m-%d %H:%M:%S"

  /** The readings satisfy the rate and CPU samplers' arithmetic preconditions. */
  predicate SamplersDefined(rd: Readings) {
    Rate.SpeedDefined(IFACE_NAME, rd.net1, rd.net2) && Cpu.CpuDefined(rd.stat1, rd.stat2)
  }

  /** `get_time`: the "time" block with the formatted local time. */
  function TimeBlock(clock: string): (b: Block)
    ensures b.name == "time" && b.fullText == clock && b.minWidth == None && b.color == None
  {
    NewBlock("time", clock)
  }

  /** Every sampler of the cycle, run on its readings. */
  function Sample(rd: Readings): (s: Sampled)
    requires SamplersDefined(rd)
    ensures WellNamed(s)
  {
    Sampled(
      Rate.GetRate(IFACE_NAME, rd.net1, rd.net2),
      Wifi.GetWifi(rd.wifi),
      Cpu.GetCpu(rd.stat1, rd.stat2),
      Temp.GetTemp(rd.hwmon),
      Sound.GetSound(rd.wpctl, rd.parseVolume),
      Battery.GetBattery(rd.battery),
      TimeBlock(rd.clock))
  }

  /** What one cycle needs to avoid a panic: the rate sampler always runs, the
      CPU sampler only once the rate and Wi-Fi samplers have succeeded. */
  predicate CycleDefined(rd: Readings) {
    && Rate.SpeedDefined(IFACE_NAME, rd.net1, rd.net2)
    && (Rate.GetRate(IFACE_NAME, rd.net1, rd.net2).Ok? && Wifi.GetWifi(rd.wifi).Ok? ==>
          Cpu.CpuDefined(rd.stat1, rd.stat2))
  }

  /** `emit_status` run on raw readings: the samplers are called in order and the
      first error returns at once, so no later sampler runs. */
  function Cycle(cache: Aqi.AqiCache, rd: Readings): (r: Result<seq<Block>>)
    requires CycleDefined(rd)
    ensures Rate.GetRate(IFACE_NAME, rd.net1, rd.net2).Err? ==>
      r == Err(Rate.GetRate(IFACE_NAME, rd.net1, rd.net2).error)
    ensures Rate.GetRate(IFACE_NAME, rd.net1, rd.net2).Ok? && Wifi.GetWifi(rd.wifi).Err? ==>
      r == Err(Wifi.GetWifi(rd.wifi).error)
    ensures r.Ok? ==> 6 <= |r.value| <= 8 && r.value[|r.value| - 1] == TimeBlock(rd.clock)
  {
    var aqi := OptionToSeq(Aqi.Get(cache));
    var rate :- Rate.GetRate(IFACE_NAME, rd.net1, rd.net2);
    var wifi :- Wifi.GetWifi(rd.wifi);
    var cpu :- Cpu.GetCpu(rd.stat1, rd.stat2);
    var temp :- Temp.GetTemp(rd.hwmon);
    var sound :- Sound.GetSound(rd.wpctl, rd.parseVolume);
    var battery :- Battery.GetBattery(rd.battery);
    Ok(aqi + [rate, wifi, cpu, temp, sound] + OptionToSeq(battery) + [TimeBlock(rd.clock)])
  }

  /** Where every sampler can run, the short-circuiting cycle is `EmitStatus` over
      all the samplers' outcomes. */
  lemma CycleIsEmitStatus(cache: Aqi.AqiCache, rd: Readings)
    requires SamplersDefined(rd)
    ensures CycleDefined(rd)
    ensures Cycle(cache, rd) == EmitStatus(cache, Sample(rd))
  {
  }

  /** Every cycle the readings allow is `EmitStatus` over some samplers' outcomes:
      a sampler that never ran is given an outcome that the earlier error hides. */
  lemma CycleIsSomeSnapshot(cache: Aqi.AqiCache, rd: Readings)
    requires CycleDefined(rd)
    ensures exists s: Sampled :: Cycle(cache, rd) == EmitStatus(cache, s)
  {
    var rate := Rate.GetRate(IFACE_NAME, rd.net1, rd.net2);
    var wifi := Wifi.GetWifi(rd.wifi);
    var cpu := if rate.Ok? && wifi.Ok? then Cpu.GetCpu(rd.stat1, rd.stat2) else Ok(TimeBlock(rd.clock));
    var s := Sampled(rate, wifi, cpu, Temp.GetTemp(rd.hwmon), Sound.GetSound(rd.wpctl, rd.parseVolume),
                     Battery.GetBattery(rd.battery), TimeBlock(rd.clock));
    assert Cycle(cache, rd) == EmitStatus(cache, s);
  }

  /** A successful cycle ran every sampler, so the readings were fully defined. */
  lemma SuccessfulCycleSampledAll(cache: Aqi.AqiCache, rd: Readings)
    requires CycleDefined(rd)
    ensures Cycle(cache, rd).Ok? ==> SamplersDefined(rd)
  {
  }

  /** Whatever the readings, a successful cycle lists its blocks in display order,
      without repeats, with the time block last. */
  lemma CycleInDisplayOrder(cache: Aqi.AqiCache, rd: Readings)
    requires CycleDefined(rd)
    ensures Cycle(cache, rd).Ok? ==>
      var bs := Cycle(cache, rd).value;
      StrictlyRanked(Names(bs)) && bs[|bs| - 1].name == "time"
  {
    if Cycle(cache, rd).Ok? {
      SuccessfulCycleSampledAll(cache, rd);
      CycleIsEmitStatus(cache, rd);
      SnapshotOrder(cache, Sample(rd));
    }
  }

  /** A missing rx_bytes file fails the whole cycle with that error, whatever the
      other readings are: no later sampler runs. */
  lemma MissingRxFailsCycle(cache: Aqi.AqiCache, rd: Readings)
    requires !rd.net1.rxExists
    ensures CycleDefined(rd)
    ensures Cycle(cache, rd) == Err(CliError(Rate.RxBytesPath(IFACE_NAME) + " does not exist"))
  {
  }
}
