/** CPU usage (src/cpu.rs): the aggregate `cpu` line of /proc/stat read twice,
    half a second apart; the share of non-idle ticks in between is the usage. */
module Cpu {
  import opened Errors
  import opened Ints
  import opened Decimal
  import opened Text
  import opened SwayBar

  /** The first eight counters of the `cpu` line, in the kernel's order. Guest time
      is already included in user time, so the guest columns are not read. */
  datatype CpuStat = CpuStat(
    user: u64, nice: u64, system: u64, idle: u64,
    iowait: u64, irq: u64, softIrq: u64, steal: u64)

  // ---------------------------------------------------------------- parsing

  /** The value of the `k`-th whitespace-separated token: its `u64` value, or 0 when
      it is not a number or there is no such token. */
  function Field(ts: seq<string>, k: nat): u64 {
    if k < |ts| then ParseU64Or0(ts[k]) else 0
  }

  function ParseAll(ts: seq<string>): (vs: seq<u64>)
    ensures |vs| == |ts| && forall i :: 0 <= i < |ts| ==> vs[i] == ParseU64Or0(ts[i])
  {
    if |ts| == 0 then [] else [ParseU64Or0(ts[0])] + ParseAll(ts[1..])
  }

  function Reverse<T>(xs: seq<T>): (r: seq<T>)
    ensures |r| == |xs|
  {
    if |xs| == 0 then [] else Reverse(xs[1..]) + [xs[0]]
  }

  /** `Vec::pop().unwrap_or_default()`: the last element and the rest, or 0 on an
      empty vector. */
  function PopOr0(stack: seq<u64>): (u64, seq<u64>) {
    if |stack| == 0 then (0, []) else (stack[|stack| - 1], stack[..|stack| - 1])
  }

  function Drop<T>(xs: seq<T>, n: nat): seq<T> {
    if n <= |xs| then xs[n..] else []
  }

  /** Popping a reversed suffix yields its first element and leaves the next suffix. */
  lemma PopReversedSuffix(xs: seq<u64>, n: nat)
    ensures PopOr0(Reverse(Drop(xs, n))) == (NthOr0(xs, n), Reverse(Drop(xs, n + 1)))
  {
    if n < |xs| {
      var ys := xs[n..];
      assert Drop(xs, n) == ys;
      assert ys[1..] == Drop(xs, n + 1);
      var r := Reverse(ys);
      assert r == Reverse(ys[1..]) + [ys[0]];
      assert r[..|r| - 1] == Reverse(ys[1..]);
    }
  }

  function NthOr0(xs: seq<u64>, k: nat): u64 {
    if k < |xs| then xs[k] else 0
  }

  /** `n` successive `pop().unwrap_or_default()` calls, in the order they happen. */
  function PopMany(stack: seq<u64>, n: nat): (r: seq<u64>)
    ensures |r| == n
  {
    if n == 0 then []
    else
      var (v, rest) := PopOr0(stack);
      [v] + PopMany(rest, n - 1)
  }

  /** Popping from a reversed suffix reads that suffix front to back, padding with 0. */
  lemma PopManyReversed(xs: seq<u64>, m: nat, n: nat)
    ensures forall i :: 0 <= i < n ==> PopMany(Reverse(Drop(xs, m)), n)[i] == NthOr0(xs, m + i)
  {
    forall i | 0 <= i < n
      ensures PopMany(Reverse(Drop(xs, m)), n)[i] == NthOr0(xs, m + i)
    {
      PopManyAt(xs, m, n, i);
    }
  }

  /** The `i`-th pop from the reversed suffix starting at `m` is element `m + i`. */
  lemma {:induction false} PopManyAt(xs: seq<u64>, m: nat, n: nat, i: nat)
    requires i < n
    ensures PopMany(Reverse(Drop(xs, m)), n)[i] == NthOr0(xs, m + i)
    decreases i
  {
    var r := PopMany(Reverse(Drop(xs, m)), n);
    var tail := PopMany(Reverse(Drop(xs, m + 1)), n - 1);
    PopManyStep(xs, m, n);
    assert r == [NthOr0(xs, m)] + tail;
    if i > 0 {
      PopManyAt(xs, m + 1, n - 1, i - 1);
      assert r[i] == tail[i - 1];
    }
  }

  /** One pop from the reversed suffix: the suffix's head, then the pops of the
      next suffix. */
  lemma PopManyStep(xs: seq<u64>, m: nat, n: nat)
    requires n > 0
    ensures PopMany(Reverse(Drop(xs, m)), n) ==
      [NthOr0(xs, m)] + PopMany(Reverse(Drop(xs, m + 1)), n - 1)
  {
    PopReversedSuffix(xs, m);
  }

  /** `From<&str> for CpuUsageStat`: parse every token (non-numbers become 0),
      reverse, pop the leading `cpu` label, then pop the eight counters. */
  function ParseCpuLine(line: string): CpuStat {
    var (_, stack) := PopOr0(Reverse(ParseAll(Tokens(line))));
    var c := PopMany(stack, 8);
    CpuStat(c[0], c[1], c[2], c[3], c[4], c[5], c[6], c[7])
  }

  /** Token `k` of the line fills the `k`-th counter (the label is token 0): missing
      or non-numeric tokens give 0, and tokens after the eighth counter are never
      popped. */
  lemma ParseCpuLineFields(line: string)
    ensures var st := ParseCpuLine(line);
      var ts := Tokens(line);
      && st.user == Field(ts, 1) && st.nice == Field(ts, 2)
      && st.system == Field(ts, 3) && st.idle == Field(ts, 4)
      && st.iowait == Field(ts, 5) && st.irq == Field(ts, 6)
      && st.softIrq == Field(ts, 7) && st.steal == Field(ts, 8)
  {
    var vs := ParseAll(Tokens(line));
    assert Drop(vs, 0) == vs;
    PopReversedSuffix(vs, 0);
    PopManyReversed(vs, 1, 8);
  }

  /** The leading label is dropped whatever it says: two lines that differ only in
      their first token parse alike. */
  lemma FirstTokenIgnored(a: string, b: string, c: char, rest: string)
    requires IsToken(a) && IsToken(b) && IsAsciiWhitespace(c)
    ensures ParseCpuLine(a + [c] + rest) == ParseCpuLine(b + [c] + rest)
  {
    ParseCpuLineFields(a + [c] + rest);
    ParseCpuLineFields(b + [c] + rest);
    TokensOfSeparated(a, c, rest);
    TokensOfSeparated(b, c, rest);
    TokensOfToken(a);
    TokensOfToken(b);
  }

  /** Once a line has its label and eight counters, further columns (guest,
      guest_nice, ...) change nothing. */
  lemma ExtraColumnsIgnored(line: string, c: char, extra: string)
    requires |Tokens(line)| >= 9 && IsAsciiWhitespace(c)
    ensures ParseCpuLine(line + [c] + extra) == ParseCpuLine(line)
  {
    ParseCpuLineFields(line + [c] + extra);
    ParseCpuLineFields(line);
    TokensOfSeparated(line, c, extra);
    var ts := Tokens(line);
    var us := Tokens(line + [c] + extra);
    assert forall k :: 1 <= k <= 8 ==> us[k] == ts[k];
  }

  // ---------------------------------------------------------------- times

  /** Ticks spent working: user, nice, system, irq and softirq, summed with
      saturation at `u64::MAX`. */
  function WorkTime(st: CpuStat): (w: u64)
    ensures w == Min(st.user + st.nice + st.system + st.irq + st.softIrq, U64_MAX)
  {
    SaturatingAdd(SaturatingAdd(SaturatingAdd(SaturatingAdd(st.user, st.nice), st.system), st.irq), st.softIrq)
  }

  /** All ticks: the work time plus iowait, idle and steal, saturating; never less
      than the work time. */
  function TotalTime(st: CpuStat): (t: u64)
    ensures t == Min(st.user + st.nice + st.system + st.irq + st.softIrq +
                     st.iowait + st.idle + st.steal, U64_MAX)
    ensures WorkTime(st) <= t
  {
    SaturatingAdd(SaturatingAdd(SaturatingAdd(WorkTime(st), st.iowait), st.idle), st.steal)
  }

  /** What `cpu_usage_percent` needs to avoid a panic: neither time went backwards,
      some ticks elapsed (no division by zero) and `work delta * 100` fits in `u64`. */
  predicate UsageDefined(before: CpuStat, after: CpuStat) {
    && WorkTime(before) <= WorkTime(after)
    && TotalTime(before) < TotalTime(after)
    && (WorkTime(after) - WorkTime(before)) * 100 <= U64_MAX
  }

  /** `p` is `a / d` rounded down: `p * d <= a < p * d + d`. */
  predicate FloorQuotient(p: nat, a: nat, d: nat) {
    p * d <= a < p * d + d
  }

  /** Share of the elapsed ticks spent working, in whole percent rounded down. */
  function CpuUsagePercent(after: CpuStat, before: CpuStat): (p: u64)
    requires UsageDefined(before, after)
    ensures var dw := WorkTime(after) - WorkTime(before);
      var dt := TotalTime(after) - TotalTime(before);
      && FloorQuotient(p, dw * 100, dt)
      && (dw <= dt ==> p <= 100)
  {
    Percent(WorkTime(after) - WorkTime(before), TotalTime(after) - TotalTime(before))
  }

  /** `work * 100 / total` on naturals. */
  function Percent(work: nat, total: nat): (p: nat)
    requires total > 0
    ensures FloorQuotient(p, work * 100, total)
    ensures p <= work * 100
    ensures work <= total ==> p <= 100
  {
    FloorDivBracket(work * 100, total);
    work * 100 / total
  }

  /** Rounded-down division by a positive divisor brackets the dividend, never
      exceeds it, and stays at most 100 while the dividend is at most 100 times
      the divisor. */
  lemma FloorDivBracket(a: nat, d: nat)
    requires d > 0
    ensures FloorQuotient(a / d, a, d)
    ensures a / d <= a
    ensures a <= d * 100 ==> a / d <= 100
  {
    var q := a / d;
    assert q * d + a % d == a;
    AtLeastOnce(q, d);
    if q > 100 {
      AtLeastTimes(q, 101, d);
    }
  }

  /** A multiple by a positive factor is at least the number itself. */
  lemma {:induction false} AtLeastOnce(q: nat, d: nat)
    requires d > 0
    ensures q <= q * d
    decreases d
  {
    if d > 1 {
      AtLeastOnce(q, d - 1);
      assert q * d == q * (d - 1) + q;
    }
  }

  /** Multiplying by `d` keeps `m <= q`. */
  lemma {:induction false} AtLeastTimes(q: nat, m: nat, d: nat)
    requires m <= q
    ensures m * d <= q * d
    decreases d
  {
    if d > 0 {
      AtLeastTimes(q, m, d - 1);
      assert q * d == q * (d - 1) + q;
      assert m * d == m * (d - 1) + m;
    }
  }

  /** Every counter of `after` is at least the same counter of `before`. */
  predicate CountersAdvance(before: CpuStat, after: CpuStat) {
    && before.user <= after.user && before.nice <= after.nice
    && before.system <= after.system && before.idle <= after.idle
    && before.iowait <= after.iowait && before.irq <= after.irq
    && before.softIrq <= after.softIrq && before.steal <= after.steal
  }

  /** With non-decreasing counters that do not saturate, the work delta is at most
      the total delta, so the usage never exceeds 100%. */
  lemma UsageAtMostHundred(before: CpuStat, after: CpuStat)
    requires CountersAdvance(before, after)
    requires TotalTime(after) < U64_MAX
    requires TotalTime(before) < TotalTime(after)
    requires (WorkTime(after) - WorkTime(before)) * 100 <= U64_MAX
    ensures UsageDefined(before, after)
    ensures CpuUsagePercent(after, before) <= 100
  {
  }

  // ---------------------------------------------------------------- retrieve

  /** `retrieve`: parse the first line of /proc/stat. A read error propagates; the
      "no first line" error is unreachable, since splitting always yields a piece. */
  function Retrieve(content: Result<string>): (r: Result<CpuStat>)
    ensures r.Ok? <==> content.Ok?
    ensures content.Err? ==> r == Err(content.error)
  {
    var stat :- content;
    match FirstLine(stat)
    case Some(line) => Ok(ParseCpuLine(line))
    case None => Err(CliError("Failed to read first line of /proc/state"))
  }

  lemma {:induction false} IndexOfAfter(a: string, b: string, c: char)
    requires c !in a
    ensures IndexOf(a + b, c) == |a| + IndexOf(b, c)
    decreases |a|
  {
    if |a| > 0 {
      assert (a + b)[1..] == a[1..] + b;
      IndexOfAfter(a[1..], b, c);
    } else {
      assert a + b == b;
    }
  }

  /** Only the text before the first line feed is parsed. */
  lemma RetrieveReadsFirstLine(line: string, rest: string)
    requires '\n' !in line
    ensures Retrieve(Ok(line)) == Ok(ParseCpuLine(line))
    ensures Retrieve(Ok(line + "\n" + rest)) == Ok(ParseCpuLine(line))
  {
    IndexOfAfter(line, "", '\n');
    assert line + "" == line;
    IndexOfAfter(line, "\n" + rest, '\n');
    assert line + "\n" + rest == line + ("\n" + rest);
    assert (line + ("\n" + rest))[..|line|] == line;
  }

  // ---------------------------------------------------------------- block

  /** Red from 80%, yellow from 50% up to 80%, no colour below 50%. */
  function CpuColor(percent: nat): (c: Option<string>)
    ensures c == Some(COLOR_RED) <==> percent >= 80
    ensures c == Some(COLOR_YELLOW) <==> 50 <= percent < 80
    ensures c == None <==> percent < 50
  {
    if percent >= 80 then Some(COLOR_RED)
    else if percent >= 50 then Some(COLOR_YELLOW)
    else None
  }

  /** `format!("C: {percent:>3}%")`. */
  function CpuText(percent: nat): string {
    "C: " + PadLeft(NatToString(percent), 3) + "%"
  }

  /** Any percentage up to 999 renders in exactly 7 characters, and the number
      reads back from the three-character field. */
  lemma CpuTextReadsBack(percent: nat)
    requires percent < 1000
    ensures |CpuText(percent)| == 7
    ensures ParseU64(TrimStart(CpuText(percent)[3..6])) == Some(percent)
  {
    var s := NatToString(percent);
    ShortRendering(percent);
    var pad := PadLeft(s, 3);
    assert |pad| == 3;
    assert CpuText(percent) == "C: " + pad + "%";
    assert CpuText(percent)[3..6] == pad;
    assert IsDigit(s[0]);
    TrimStartOfPadded(s, 3);
    ParseRendering(percent);
  }

  lemma ShortRendering(n: nat)
    requires n < 1000
    ensures |NatToString(n)| <= 3
  {
    if n >= 10 {
      assert |NatToString(n)| == |NatToString(n / 10)| + 1;
      if n / 10 >= 10 {
        assert |NatToString(n / 10)| == |NatToString(n / 100)| + 1;
      }
    }
  }

  /** Both readings needed for a usage figure succeed only together, and when they
      do the counters satisfy what the division needs. */
  predicate CpuDefined(first: Result<string>, second: Result<string>) {
    Retrieve(first).Ok? && Retrieve(second).Ok? ==>
      UsageDefined(Retrieve(first).value, Retrieve(second).value)
  }

  /** `get_cpu`: the "cpu" block with the usage text, min_width 7 and the usage
      colour, or the error of the first failing read. */
  function GetCpu(first: Result<string>, second: Result<string>): (r: Result<Block>)
    requires CpuDefined(first, second)
    ensures r.Ok? <==> first.Ok? && second.Ok?
    ensures first.Err? ==> r == Err(first.error)
    ensures first.Ok? && second.Err? ==> r == Err(second.error)
    ensures r.Ok? ==>
      var p := CpuUsagePercent(Retrieve(second).value, Retrieve(first).value);
      && r.value.name == "cpu"
      && r.value.fullText == CpuText(p)
      && r.value.minWidth == Some(7)
      && r.value.color == CpuColor(p)
      && r.value.urgent == None
  {
    var before :- Retrieve(first);
    var after :- Retrieve(second);
    var percent := CpuUsagePercent(after, before);
    Ok(Block("cpu", CpuText(percent), Some(7), None, CpuColor(percent)))
  }
}
