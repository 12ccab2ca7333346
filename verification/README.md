# msb status bar — Dafny model

msb is a swaybar status command. It prints the swaybar protocol header and an
opening `[`. After that, on every 10-second timer tick and on every SIGCONT, it
samples the host and prints one JSON array of blocks followed by a comma. A
snapshot holds these blocks, in this order:

- air quality, from a background refresher;
- network rate;
- Wi-Fi signal;
- CPU usage;
- temperature;
- audio volume;
- battery;
- clock.

A sampler error goes to a log file instead of the output.

This project models that core as pure functions over immutable datatypes:

| module | file | source | models |
|---|---|---|---|
| `Errors` | errors.dfy | src/error.rs | `CliError`, `Option` and `Result`. The `:-` operator plays the part of Rust's `?`. |
| `Ints` | ints.dfy | Rust standard library | The unsigned and signed widths used (`u8`, `u32`, `u64`, `i8`, `i64`), plus `saturating_add`. |
| `Decimal` | decimal.dfy | Rust standard library | Rendering of a `u64` with `{}`, and `u64::from_str`, including `+`, overflow and rejection. |
| `Text` | text.dfy | Rust standard library | `split_ascii_whitespace`, `str::trim`, `strip_prefix` and `strip_suffix`, `split('\n').next()`, and `{:>N}` padding. |
| `SwayBar` | swaybar.dfy | src/main.rs | The block record, the two colours, and the protocol header. |
| `Rate` | rate.dfy | src/rate.rs | `bytes_to_human`, `get_net_bytes`, `get_net_speed` and `get_rate`. |
| `Cpu` | cpu.dfy | src/cpu.rs | `/proc/stat` parsing, work and total time, usage percent, `retrieve` and `get_cpu`. |
| `Wifi` | wifi.dfy | src/wifi.rs | `dbm_to_percentage` and `get_wifi`. |
| `Battery` | battery.dfy | src/battery.rs | `get_battery`: error order, time left, and the classification table. |
| `Temp` | temp.dfy | src/temp.rs | `get_temp`: the hwmon name map and the preferred-sensor search. |
| `Sound` | sound.dfy | src/sound.rs | `get_sound`: parsing of the `wpctl get-volume` line. |
| `Aqi` | aqi.dfy | src/aqi.rs | The refresher's cell, `get` and `get_aqi`'s missing-key case. |
| `Status` | status.dfy | src/main.rs | `emit_status`: snapshot order and error propagation. |
| `Stream` | stream.dfy | src/main.rs | `main`: the header, the loop over timer, signal and refresher events, the log, and the output framing. |

The outside world is turned into parameters:

- File contents and existence checks are `Result` values or accessor functions.
- The netlink query is a `WifiQuery` value.
- `wpctl`'s stdout is a `Result<string>`.
- The air-quality reply is a `Result<u32>`.
- The clock text is a string.
- A failed append to the log file is an `Option<CliError>` carried on each event.

Four behaviours of the code are worth knowing before reading the model:

- **A failing sampler aborts the whole cycle.** `emit_status` applies `?` to
  every sampler (src/main.rs:82-91). The first error ends the cycle, nothing is
  printed, and only that error is logged (src/main.rs:118-119).
- **The samplers run one after another.** Each is awaited before the next
  starts (src/main.rs:82-92).
- **Logging can end the process.** A failed append to the log file leaves
  `main` with that error (src/main.rs:119, 123, 125).
- **No temperature sensor still yields a block.** The block shows 0 °C
  (src/temp.rs:15, 41-47).

The three battery symbols are modelled as the characters src/battery.rs:10-12
actually contains. Those characters are the Windows-1252 reading of the UTF-8
bytes of U+26A1 U+FE0E, U+1F50B and U+1FAAB.

## Model

| member | source | states |
|---|---|---|
| Rate.UnitOf | src/rate.rs:12-23 | Each byte rate falls in exactly one unit range. TiB is chosen only strictly above 2^40, while GiB, MiB and KiB start at their own size. |
| Rate.BytesToHuman | src/rate.rs:12-24 | Below 1 KiB the text is the byte count followed by " B". Every other branch is stated by `Rate.BytesToHumanReadsBack`. |
| Rate.WholePartRange | src/rate.rs:13-20 | The whole part is 1–1023 in KiB and MiB and 1–1024 in GiB, where 1024 occurs only at exactly 2^40. It is at least 1 in TiB. |
| Rate.BytesToHumanReadsBack | src/rate.rs:12-24 | The rendered text parses back as `whole.frac unit`, in the unit `UnitOf` picks. The fraction counts 1024ths of the unit. `whole*U + frac*U/1024 <= bytes < whole*U + (frac+1)*U/1024`, so the text pins the rate down to one 1024th of its unit. |
| Rate.KiBIsExact | src/rate.rs:19-20 | In the KiB range the text is exact: `whole*1024 + frac` is the byte count. |
| Rate.TiBBoundary | src/rate.rs:13-16 | 2^40 bytes renders as "1024.0 GiB" and 2^40+1 as "1.0 TiB". |
| Rate.RatePerSecond | src/rate.rs:45-46 | The rate over the 500 ms interval is exactly twice the counter delta. `r * 500 == delta * 1000`. |
| Rate.NetBytes | src/rate.rs:50-57 | A missing rx_bytes gives "<path> does not exist" for the interface's path. Otherwise the rx error comes before the tx error. Success carries both counters. |
| Rate.NetSpeed | src/rate.rs:41-48 | The error of the first failing reading propagates. On success the two rendered rates come from the counter deltas. |
| Rate.GetRate | src/rate.rs:26-39 | On success the "rate" block has min_width 28 and the `RateText` line of the two rendered rates. Errors propagate unchanged. |
| Rate.RateTextReadsBack | src/rate.rs:32-35 | When the name fits in 8 characters and each rate in 9, the line is 37 characters long and every field sits at a fixed column. Trimming a field's padding gives back the name or the rate. |
| Rate.RateLineReadsBack | src/rate.rs:29-35 | When both renderings fit their fields, each field of the line reads back to a value that brackets its rate within one 1024th of the rate's unit. |
| Rate.LongRateOverflowsField | src/rate.rs:19-20 | A KiB rate can render in 13 characters ("1023.1023 KiB"), wider than its 9-character field. |
| Cpu.ParseCpuLineFields | src/cpu.rs:21-45 | Counter k of the parsed stat is the (k+1)-th whitespace token read as u64. A missing or unparseable token gives 0. |
| Cpu.ParseCpuLine | src/cpu.rs:21-45 | The parse; its counters are stated by `Cpu.ParseCpuLineFields`. Counter k is the u64 value of token k, or 0. |
| Cpu.FirstTokenIgnored | src/cpu.rs:27-29 | The leading label token does not influence the parsed counters. |
| Cpu.ExtraColumnsIgnored | src/cpu.rs:30-43 | Columns after the eighth counter (guest, guest_nice, …) do not change the parse. |
| Cpu.WorkTime | src/cpu.rs:53-59 | The work time is the sum of user, nice, system, irq and softirq, saturated at u64::MAX. |
| Cpu.TotalTime | src/cpu.rs:61-66 | The total time is the sum of all eight counters, saturated at u64::MAX. It is never below the work time. |
| Cpu.CpuUsagePercent | src/cpu.rs:48-51 | The result is the floor of `100*dw/dt`: `p*dt <= 100*dw < (p+1)*dt`. It is at most 100 whenever `dw <= dt`. |
| Cpu.Percent | src/cpu.rs:49-50 | The same floor bracketing for `work*100/total` on naturals. |
| Cpu.UsageAtMostHundred | src/cpu.rs:48-66 | Four hypotheses: no counter goes backwards, the later total does not saturate, the total advances strictly, and `work delta * 100` fits in u64. Together they make the division defined, and the usage is then at most 100%. |
| Cpu.Retrieve | src/cpu.rs:68-76 | It succeeds exactly when the file read succeeds. A read error propagates unchanged. |
| Cpu.RetrieveReadsFirstLine | src/cpu.rs:71-72 | Only the text before the first line feed is parsed. Later lines change nothing. |
| Cpu.CpuColor | src/cpu.rs:84-90 | Red iff usage ≥ 80. Yellow iff 50 ≤ usage < 80. No colour iff usage < 50. |
| Cpu.CpuTextReadsBack | src/cpu.rs:94-95 | Every usage below 1000 renders in exactly 7 characters. The padded field parses back to the usage. |
| Cpu.GetCpu | src/cpu.rs:79-99 | It fails iff a read fails, with the first read's error first. On success the "cpu" block has min_width 7, the usage text and the usage colour. |
| Wifi.DbmToPercentage | src/wifi.rs:11-21 | The percentage is always 0..100. It is 100 at or above -50 dBm and 0 at or below -100 dBm, and exactly `2*(dbm+100)` in between. |
| Wifi.PercentageMonotone | src/wifi.rs:11-21 | A stronger signal never shows a lower percentage. |
| Wifi.WifiColor | src/wifi.rs:33-39 | No colour iff > 50%. Yellow iff 26–50%. Red iff ≤ 25%. |
| Wifi.GetWifi | src/wifi.rs:23-54 | It fails exactly when the netlink query fails. A reported signal gives its percentage block. A missing interface or a missing signal gives "📶 0%" in red. |
| Wifi.FallbackIsNoiseFloor | src/wifi.rs:48-53 | The fallback block equals the block for a signal at the -100 dBm noise floor. |
| Battery.TimeLeft | src/battery.rs:30-36 | A discharging battery at or above its design energy has 0 hours left. Otherwise the time left is the power quotient. |
| Battery.Classify | src/battery.rs:40-50 | The emoji and colour table, including the `< 0.5` hour comparison with NaN and infinities treated as IEEE does. |
| Battery.ClassifyByColour | src/battery.rs:40-50 | Charging iff the charging symbol. Red iff discharging and either below half an hour or at most 30%. Yellow iff discharging, not below half an hour, and 31–60%. |
| Battery.GetBattery | src/battery.rs:14-62 | No BAT0 gives no block. The first failing read wins, in the order energy_now, energy_full_design, status, power_now. On success the "battery" block has min_width 12, with symbol, percent and clock text. |
| Battery.FullButDischargingIsRed | src/battery.rs:32-33 | A discharging battery at or above full design energy shows the empty symbol in red. |
| Battery.ChargingIsUncoloured | src/battery.rs:40-41 | Any status other than "Discharging" shows the charging symbol without colour. |
| Temp.NameMapKeepsLast | src/temp.rs:17-24 | The name map is built iff every name file is readable, and otherwise fails with the first unreadable name's error. Each name maps to the last directory that reports it. |
| Temp.BuildNameMap | src/temp.rs:17-24 | The name-map loop. `Temp.NameMapKeepsLast` states it against the independent `LastNamed`: every name file is read, the first read error aborts, and the last directory with a name wins. |
| Temp.SelectDegree | src/temp.rs:26-34 | The preferred-sensor loop. `Temp.SelectsFirstUsable` states that the first preferred name with a temp1_input decides the reading and that no usable sensor leaves 0. |
| Temp.SelectsFirstUsable | src/temp.rs:26-34 | The first preferred name whose directory has a temp1_input decides the reading. No usable sensor leaves 0. |
| Temp.TempColor | src/temp.rs:35-39 | Red iff ≥ 80 °C, otherwise no colour. |
| Temp.GetTemp | src/temp.rs:14-48 | A listing error propagates. Success implies every name was readable. The block is "temp" with min_width 8. |
| Temp.NoSensorShowsZero | src/temp.rs:15-47 | Without a usable preferred sensor the block shows 0 °C, uncoloured. It is not omitted. |
| Temp.GetTempReadsFirstUsable | src/temp.rs:26-47 | With the i-th preferred name as the first usable one, the block shows its millidegrees / 1000, or the read error propagates. |
| Sound.SplitMuted | src/sound.rs:18-22 | Muted iff the text ends in " [MUTED]". The numeric part is the text with that suffix removed. |
| Sound.GetSound | src/sound.rs:8-44 | A run or decode error propagates. Without the "Volume: " prefix the error quotes the trimmed output. A parse error propagates. Otherwise the block has the parsed volume and the muted flag. |
| Sound.SoundColour | src/sound.rs:23-33 | Muted means the muted-speaker symbol in yellow. Unmuted means a note without colour. |
| Sound.ReadsWpctlLine | src/sound.rs:16-22 | Reading back a printed `Volume: v [MUTED]` line with trailing whitespace recovers the muted flag. It hands exactly `v` to the number parser. |
| Aqi.FetchAqi | src/aqi.rs:59-64 | Without AQI_CN_KEY the fetch succeeds with 0. With the key it is the reply's outcome. |
| Aqi.Refresh | src/aqi.rs:24-26 | A successful fetch stores its value. A failed fetch leaves the cell unchanged. |
| Aqi.Get | src/aqi.rs:33-46 | A block appears iff the cell is above 0. It is "AQI: n" with min_width 9. |
| Aqi.CacheHoldsLastSuccess | src/aqi.rs:20-28 | After any sequence of fetches the cell holds the last successful value, or its start value if none succeeded. |
| Aqi.BlockShownIffLastSuccessPositive | src/aqi.rs:20-46 | From the start, the block is shown iff some fetch has succeeded and the last success was above 0. |
| Aqi.NoKeyNoBlock | src/aqi.rs:59-64 | Without a key every fetch stores 0, so no air-quality block is ever shown. |
| SwayBar.DefaultHeaderText | src/main.rs:34-41 | The header line is `{"version":1,"click_events":false}`. |
| Status.EmitStatus | src/main.rs:74-97 | It succeeds iff every sampler succeeded, and otherwise fails with the first error in call order. On success the snapshot is the samplers' blocks in call order: 6 to 8 blocks, with time last. |
| Status.SnapshotOrder | src/main.rs:77-92 | With well-named blocks the snapshot's names are exactly the present sources, strictly ordered aqi, rate, wifi, cpu, temp, sound, battery, time. With both optional blocks present they are the whole display order. |
| Status.RankIsOrderIndex | src/main.rs:79-92 | The rank used to compare names is the position in the display order aqi, rate, wifi, cpu, temp, sound, battery, time. |
| Status.TimeBlock | src/main.rs:65-72 | The clock block is named "time" and carries the clock text, with no min_width and no colour. |
| Status.Sample | src/main.rs:79-92 | Each sampler's successful block carries its own name. This eager sampling is defined only where every sampler can run (see "## Left out"). |
| Status.Cycle | src/main.rs:74-92 | `emit_status` on raw readings, as a short-circuiting chain in call order. A rate error is the cycle's result, and so is a Wi-Fi error after a successful rate. On success there are 6 to 8 blocks, with the clock block last. |
| Status.CycleIsEmitStatus | src/main.rs:74-92 | Where every sampler can run, the short-circuiting cycle equals `EmitStatus` over all the samplers' outcomes. |
| Status.CycleIsSomeSnapshot | src/main.rs:74-92 | Every cycle the readings allow equals `EmitStatus` over some samplers' outcomes. So the event-loop lemmas, which take those outcomes as input, apply to every cycle run on readings. |
| Status.SuccessfulCycleSampledAll | src/main.rs:82-91 | A successful cycle ran every sampler, so every sampler's preconditions held. |
| Status.CycleInDisplayOrder | src/main.rs:74-92 | For any readings the cycle accepts, a successful cycle lists its blocks in display order, with time last. |
| Status.MissingRxFailsCycle | src/main.rs:82 | A missing rx_bytes for wlan0 fails the whole cycle with that error, whatever the other readings are. No later sampler runs, so no precondition on them is needed. |
| Stream.Start | src/main.rs:100-111 | A failure to hook SIGCONT ends `main` before anything is written. Otherwise the header line and "[" are written. |
| Stream.Log | src/main.rs:57-63 | A successful append adds exactly the line to the log. A failed one leaves `main` with its error and changes nothing. |
| Stream.Step | src/main.rs:115-129 | One turn of the loop. It is stated by `Stream.FailedCycleOnlyLogs`, `Stream.LogFailureEndsMain`, `Stream.SuccessfulCycleWrites`, `Stream.ContinueIsLoggedTick`, `Stream.ContinueLogFailureEndsMain` and `Stream.ExitedIsFinal`. |
| Stream.Emit | src/main.rs:117-120 | A successful cycle appends its snapshot and a comma. A failed one appends its error message to the log. |
| Stream.AlwaysFramed | src/main.rs:109-129 | After any sequence of events the output is the header, "[", then snapshot/comma pairs. The output after any prefix of the events is a prefix of the final output, so it only grows. |
| Stream.FailedCycleOnlyLogs | src/main.rs:117-120 | A failed cycle writes nothing to the output and logs exactly its error. The loop continues. |
| Stream.LogFailureEndsMain | src/main.rs:118-120 | When logging a failed cycle fails, `main` returns the logging error. |
| Stream.ContinueIsLoggedTick | src/main.rs:122-126 | SIGCONT means "Got continue signal" is logged, then the same thing as a timer tick. |
| Stream.ContinueLogFailureEndsMain | src/main.rs:123 | If logging the signal fails, `main` returns before sampling. |
| Stream.SuccessfulCycleWrites | src/main.rs:94-95 | A successful cycle writes its snapshot and a comma and logs nothing. |
| Stream.ExitedIsFinal | src/main.rs:100-130 | Once `main` has returned, nothing changes. |
| Stream.CellFollowsRefresher | src/main.rs:113-129 | While `main` runs, the air-quality cell equals the refresher's state after the fetches so far. Status cycles never touch it. |
| Decimal.CanonicalIsRendering | src/rate.rs:22 | Every non-empty digit string with no leading zero (other than "0" itself) is the `{}` rendering of its value. So the renderings are exactly the canonical digit strings. |
| Decimal.ParseRendering | src/cpu.rs:25 | `u64::from_str` reads back the decimal rendering of any u64, with or without a leading "+". |
| Decimal.ParseU64RejectsMinus | src/cpu.rs:25 | A token starting with "-" never parses as u64, so that counter becomes 0. |
| Decimal.ParseU64Accepts | src/cpu.rs:25 | `u64::from_str` succeeds iff the text is an optional "+" and at least one digit, with a value that fits in u64. |
| Text.TokensOfJoin | src/cpu.rs:23-24 | Splitting space-joined tokens on ASCII whitespace gives the tokens back. |

## Left out

- Concurrency and timing are not modelled. This covers tokio's `select!`, the interval timer (including its immediate first tick), the 500 ms sleeps, the refresher's 1800 s sleep, and the fact that the refresher runs in its own task. The model sees one interleaved sequence of events.
- File, directory and netlink I/O are not modelled. Their results are inputs, and the `trim_ascii` done by the file-reading helper is assumed to have happened already.
- Running `wpctl`, UTF-8 decoding, HTTP, and decoding the air-quality JSON reply are not modelled. Their results are inputs.
- Floating-point arithmetic is abstracted away:
  - the battery's percent (`now / full * 100` truncated);
  - the time-left quotient (the `Hours` input);
  - the `hh:mm` text (the `clock` input);
  - the `f32` volume parse times 100 (the `parseVolume` input).

  Wi-Fi's `f64` arithmetic is exact on its clamped range, so it is modelled with reals.
- serde serialisation is not modelled. A snapshot is kept as its blocks rather than as pretty-printed JSON, and the serialisation error path of `emit_status` cannot occur for these types. Only the header's compact JSON is written out.
- The chrono local clock is not modelled. The time block's text is an input.
- Error messages built by src/error.rs from foreign errors (io, nispor, parse) are opaque `CliError` values.
- Battery.GetBattery: the `full - now` subtraction while charging can underflow when `energy_now` exceeds `energy_full_design`. Only the resulting quotient is an input, so that case is not modelled.
- Rate.RatePerSecond: requires the counter not to go backwards and `delta * 1000` to fit in u64. In the source those cases panic, or wrap in a release build, so they are preconditions here.
- Cpu.CpuUsagePercent: requires the work delta to be non-negative, the total delta to be positive, and `delta * 100` to fit in u64. Otherwise the source panics on subtraction, on division by zero, or on overflow.
- Writing to stdout is not modelled. `println!` panics if stdout is closed, and that is not modelled.
- Status.Sample: computes every sampler's outcome at once. It therefore needs the CPU no-panic condition even when an earlier sampler fails. `Status.Cycle` is the short-circuiting model, needs that condition only once rate and Wi-Fi succeed, and agrees with `Sample` wherever both are defined (`Status.CycleIsEmitStatus`).
- src/main.rs:85 writes `for block in crate::temp::get_temp()?`. Since `get_temp` returns one block (src/temp.rs:14), the model reads the loop as pushing that one temperature block. The snapshot always contains it.
- `main` never returns `Ok`, and the model has no exit code.
