/** Network throughput (src/rate.rs): two readings of the interface's byte
    counters half a second apart, turned into a per-second rate and rendered in
    binary units. */
module Rate {
  import opened Errors
  import opened Ints
  import opened Decimal
  import opened Text
  import opened SwayBar

  /** Milliseconds between the two counter readings. */
  const INTERVAL_MS: nat := 500

  const KIB: nat := 0x400
  const MIB: nat := 0x10_0000
  const GIB: nat := 0x4000_0000
  const TIB: nat := 0x100_0000_0000

  datatype Unit = B | KiB | MiB | GiB | TiB

  function UnitName(u: Unit): string {
    match u
    case B => "B"
    case KiB => "KiB"
    case MiB => "MiB"
    case GiB => "GiB"
    case TiB => "TiB"
  }

  /** Bytes per unit. */
  function Scale(u: Unit): (n: nat)
    ensures n >= 1
  {
    match u
    case B => 1
    case KiB => KIB
    case MiB => MIB
    case GiB => GIB
    case TiB => TIB
  }

  /** The unit `bytes_to_human` picks: each byte count falls in exactly one range,
      and only a count strictly above 2^40 is shown in TiB. */
  function UnitOf(b: u64): (u: Unit)
    ensures u == TiB <==> TIB < b
    ensures u == GiB <==> GIB <= b <= TIB
    ensures u == MiB <==> MIB <= b < GIB
    ensures u == KiB <==> KIB <= b < MIB
    ensures u == B <==> b < KIB
  {
    if b > TIB then TiB
    else if b >= GIB then GiB
    else if b >= MIB then MiB
    else if b >= KIB then KiB
    else B
  }

  /** `format!("{whole}.{frac} {unit}")`. */
  function Fractional(whole: nat, frac: nat, unit: string): string {
    NatToString(whole) + "." + NatToString(frac) + " " + unit
  }

  /** `bytes_to_human`: the fraction after the dot counts 1024ths of the unit. */
  function BytesToHuman(bytes: u64): (r: string)
    ensures bytes < KIB ==> r == NatToString(bytes) + " B"
  {
    if bytes > TIB then Fractional(bytes / TIB, bytes % TIB / GIB, "TiB")
    else if bytes >= GIB then Fractional(bytes / GIB, bytes % GIB / MIB, "GiB")
    else if bytes >= MIB then Fractional(bytes / MIB, bytes % MIB / KIB, "MiB")
    else if bytes >= KIB then Fractional(bytes / KIB, bytes % KIB, "KiB")
    else NatToString(bytes) + " B"
  }

  // ---------------------------------------------------------------- reading back

  /** What a rendered rate says: a whole part, a fraction in 1024ths, a unit. */
  datatype Human = Human(whole: nat, frac: nat, unit: Unit)

  function UnitFromSuffix(s: string): Option<Unit> {
    if s == " KiB" then Some(KiB)
    else if s == " MiB" then Some(MiB)
    else if s == " GiB" then Some(GiB)
    else if s == " TiB" then Some(TiB)
    else None
  }

  /** Reads a rendered byte count back: `<digits> B` or `<digits>.<digits> <unit>`. */
  function ParseHuman(s: string): Option<Human> {
    var n := DigitRunLen(s);
    if n == 0 then None else ParseUnitPart(DigitsValue(s[..n]), s[n..])
  }

  /** What follows the whole part: ` B`, or a dot and a fraction with its unit. */
  function ParseUnitPart(whole: nat, rest: string): Option<Human> {
    if rest == " B" then Some(Human(whole, 0, B))
    else if |rest| == 0 || rest[0] != '.' then None
    else ParseFractionPart(whole, rest[1..])
  }

  function ParseFractionPart(whole: nat, tail: string): Option<Human> {
    var m := DigitRunLen(tail);
    if m == 0 then None
    else match UnitFromSuffix(tail[m..])
      case None => None
      case Some(u) => Some(Human(whole, DigitsValue(tail[..m]), u))
  }

  lemma UnitSuffixReadsBack(u: Unit)
    requires u != B
    ensures UnitFromSuffix(" " + UnitName(u)) == Some(u)
  {
    match u
    case KiB => assert " " + UnitName(u) == " KiB";
    case MiB => assert " " + UnitName(u) == " MiB";
    case GiB => assert " " + UnitName(u) == " GiB";
    case TiB => assert " " + UnitName(u) == " TiB";
  }

  lemma ReadBackFractional(whole: nat, frac: nat, u: Unit)
    requires u != B
    ensures ParseHuman(Fractional(whole, frac, UnitName(u))) == Some(Human(whole, frac, u))
  {
    var w := NatToString(whole);
    var f := NatToString(frac);
    var suffix := " " + UnitName(u);
    var tail := f + suffix;
    var rest := "." + tail;
    assert Fractional(whole, frac, UnitName(u)) == w + rest;
    DigitRunOf(w, rest);
    assert ParseHuman(w + rest) == ParseUnitPart(whole, rest);
    assert rest[1..] == tail;
    assert ParseUnitPart(whole, rest) == ParseFractionPart(whole, tail);
    DigitRunOf(f, suffix);
    UnitSuffixReadsBack(u);
    assert ParseFractionPart(whole, tail) == Some(Human(whole, frac, u));
  }

  lemma ReadBackBytes(b: nat)
    ensures ParseHuman(NatToString(b) + " B") == Some(Human(b, 0, B))
  {
    DigitRunOf(NatToString(b), " B");
  }

  /** What a read-back text promises about the byte count it came from. */
  predicate Brackets(h: Human, bytes: nat) {
    if h.unit == B then h.whole == bytes && h.frac == 0
    else
      var step := Scale(h.unit) / 1024;
      && h.frac < 1024
      && h.whole * Scale(h.unit) + h.frac * step <= bytes
      && bytes < h.whole * Scale(h.unit) + (h.frac + 1) * step
  }

  /** Splitting `b` into whole units of `S` and 1024ths of a unit (`T` bytes each)
      brackets it within one step. */
  lemma UnitSplitBrackets(b: nat, S: nat, T: nat)
    requires T > 0 && S == T * 1024
    ensures (b % S) / T < 1024
    ensures (b / S) * S + ((b % S) / T) * T <= b < (b / S) * S + ((b % S) / T + 1) * T
  {
    var q := b / S;
    var r := b % S;
    var f := r / T;
    assert b == q * S + r;
    assert r == f * T + r % T;
  }

  /** The rendered text determines the rate to within one 1024th of its unit:
      it reads back as `whole.frac unit` with `frac < 1024` and
      `whole*U + frac*(U/1024) <= bytes < whole*U + (frac+1)*(U/1024)`;
      in KiB the step is one byte, so the text is exact. */
  lemma BytesToHumanReadsBack(bytes: u64)
    ensures ParseHuman(BytesToHuman(bytes)).Some?
    ensures ParseHuman(BytesToHuman(bytes)).value.unit == UnitOf(bytes)
    ensures Brackets(ParseHuman(BytesToHuman(bytes)).value, bytes)
  {
    var u := UnitOf(bytes);
    if u == B {
      ReadBackBytes(bytes);
    } else {
      RenderedBranch(bytes);
      ScaledReadsBack(bytes, u);
    }
  }

  /** A byte count written as whole units and 1024ths of `u` reads back as such
      and is bracketed by what it reads back as. */
  lemma ScaledReadsBack(bytes: nat, u: Unit)
    requires u != B
    ensures var S := Scale(u);
      var h := Human(bytes / S, bytes % S / (S / 1024), u);
      && ParseHuman(Fractional(h.whole, h.frac, UnitName(u))) == Some(h)
      && Brackets(h, bytes)
  {
    var S := Scale(u);
    var T := S / 1024;
    assert S == T * 1024;
    ReadBackFractional(bytes / S, bytes % S / T, u);
    UnitSplitBrackets(bytes, S, T);
  }

  /** Outside the bytes range, `bytes_to_human` renders the whole units and the
      1024ths of the unit it picked. */
  lemma RenderedBranch(bytes: u64)
    requires UnitOf(bytes) != B
    ensures var u := UnitOf(bytes);
      var S := Scale(u);
      && S == (S / 1024) * 1024
      && BytesToHuman(bytes) == Fractional(bytes / S, bytes % S / (S / 1024), UnitName(u))
  {
    if TIB < bytes {
      assert Scale(TiB) / 1024 == GIB;
    } else if GIB <= bytes {
      assert Scale(GiB) / 1024 == MIB;
    } else if MIB <= bytes {
      assert Scale(MiB) / 1024 == KIB;
    } else {
      assert Scale(KiB) / 1024 == 1;
      assert bytes % KIB / 1 == bytes % KIB;
    }
  }

  /** In KiB the text is exact: `whole * 1024 + frac` is the byte count. */
  lemma KiBIsExact(bytes: u64)
    requires KIB <= bytes < MIB
    ensures ParseHuman(BytesToHuman(bytes)) == Some(Human(bytes / KIB, bytes % KIB, KiB))
    ensures (bytes / KIB) * 1024 + bytes % KIB == bytes
  {
    assert BytesToHuman(bytes) == Fractional(bytes / KIB, bytes % KIB, "KiB");
    ReadBackFractional(bytes / KIB, bytes % KIB, KiB);
  }

  /** Exactly 2^40 bytes is still shown in GiB, as 1024 of them. */
  lemma TiBBoundary()
    ensures BytesToHuman(TIB) == "1024.0 GiB"
    ensures BytesToHuman(TIB + 1) == "1.0 TiB"
  {
    assert NatToString(1024) == "1024" by {
      assert NatToString(102) == "102" by {
        assert NatToString(10) == "10";
      }
    }
    assert NatToString(0) == "0";
    assert NatToString(1) == "1";
  }

  /** Every unit above bytes shows a whole part from 1 to 1023, except the GiB
      branch at exactly 2^40 (1024) and the TiB branch, which is unbounded. */
  lemma WholePartRange(bytes: u64)
    ensures var u := UnitOf(bytes);
      && (u == B ==> bytes < 1024)
      && (u != B ==> 1 <= bytes / Scale(u))
      && (u in {KiB, MiB} ==> bytes / Scale(u) < 1024)
      && (u == GiB ==> (bytes / GIB <= 1024 && (bytes / GIB == 1024 <==> bytes == TIB)))
  {
  }

  // ---------------------------------------------------------------- rate

  /** `(new - old) * 1000 / INTERVAL` in `u64`: the subtraction must not underflow
      (a counter that went backwards) nor the product overflow. */
  predicate CanMeasure(before: u64, after: u64) {
    before <= after && (after - before) * 1000 <= U64_MAX
  }

  /** Bytes per second over the half-second interval: exactly twice the delta. */
  function RatePerSecond(before: u64, after: u64): (r: u64)
    requires CanMeasure(before, after)
    ensures r * INTERVAL_MS == (after - before) * 1000
    ensures r == 2 * (after - before)
  {
    var delta := after - before;
    HalfSecondRate(delta);
    delta * 1000 / INTERVAL_MS
  }

  lemma HalfSecondRate(delta: nat)
    ensures delta * 1000 / INTERVAL_MS == 2 * delta
    ensures 2 * delta * INTERVAL_MS == delta * 1000
  {
    assert INTERVAL_MS == 500;
    assert delta * 1000 == (2 * delta) * 500;
  }

  /** What the two statistics files of the interface hold at one reading. */
  datatype CounterFiles = CounterFiles(rxExists: bool, rx: Result<u64>, tx: Result<u64>)

  function RxBytesPath(iface: string): string {
    "/sys/class/net/" + iface + "/statistics/rx_bytes"
  }

  /** `get_net_bytes`: a missing rx_bytes file is an error, never a zero count. */
  function NetBytes(iface: string, f: CounterFiles): (r: Result<(u64, u64)>)
    ensures r.Ok? <==> f.rxExists && f.rx.Ok? && f.tx.Ok?
    ensures r.Ok? ==> r.value == (f.rx.value, f.tx.value)
    ensures !f.rxExists ==> r == Err(CliError(RxBytesPath(iface) + " does not exist"))
    ensures f.rxExists && f.rx.Err? ==> r == Err(f.rx.error)
    ensures f.rxExists && f.rx.Ok? && f.tx.Err? ==> r == Err(f.tx.error)
  {
    if f.rxExists then
      var rx :- f.rx;
      var tx :- f.tx;
      Ok((rx, tx))
    else
      Err(CliError(RxBytesPath(iface) + " does not exist"))
  }

  /** Both directions' counters can be measured between the two readings. */
  predicate Advances(a: (u64, u64), b: (u64, u64)) {
    CanMeasure(a.0, b.0) && CanMeasure(a.1, b.1)
  }

  /** The source's precondition on two readings: when both succeed, neither
      counter went backwards or grew so much that the arithmetic overflows. */
  predicate SpeedDefined(iface: string, first: CounterFiles, second: CounterFiles) {
    NetBytes(iface, first).Ok? && NetBytes(iface, second).Ok? ==>
      Advances(NetBytes(iface, first).value, NetBytes(iface, second).value)
  }

  /** `get_net_speed`: the rendered receive and transmit rates, or the first
      reading's error. */
  function NetSpeed(iface: string, first: CounterFiles, second: CounterFiles): (r: Result<(string, string)>)
    requires SpeedDefined(iface, first, second)
    ensures r.Ok? <==> NetBytes(iface, first).Ok? && NetBytes(iface, second).Ok?
    ensures NetBytes(iface, first).Err? ==> r == Err(NetBytes(iface, first).error)
    ensures NetBytes(iface, first).Ok? && NetBytes(iface, second).Err? ==>
      r == Err(NetBytes(iface, second).error)
    ensures r.Ok? ==>
      var a := NetBytes(iface, first).value;
      var b := NetBytes(iface, second).value;
      r.value == (BytesToHuman(2 * (b.0 - a.0)), BytesToHuman(2 * (b.1 - a.1)))
  {
    var cur :- NetBytes(iface, first);
    var next := NetBytes(iface, second);
    if next.Err? then Err(next.error)
    else
      var rx := RatePerSecond(cur.0, next.value.0);
      var tx := RatePerSecond(cur.1, next.value.1);
      Ok((BytesToHuman(rx), BytesToHuman(tx)))
  }

  /** `format!("{iface_name:>8}: v {: >9}/s ^ {: >9}/s", rx, tx)`. */
  function RateText(iface: string, rx: string, tx: string): string {
    PadLeft(iface, 8) + ": v " + PadLeft(rx, 9) + "/s ^ " + PadLeft(tx, 9) + "/s"
  }

  /** When the name fits in 8 characters and each rate in 9, the line has a fixed
      layout of 37 characters: every field sits at a fixed column and trimming
      its padding gives back the name and the two rates. */
  lemma RateTextReadsBack(iface: string, rx: string, tx: string)
    requires 0 < |iface| <= 8 && !IsWhitespace(iface[0])
    requires 0 < |rx| <= 9 && !IsWhitespace(rx[0])
    requires 0 < |tx| <= 9 && !IsWhitespace(tx[0])
    ensures var t := RateText(iface, rx, tx);
      && |t| == 37
      && TrimStart(t[..8]) == iface
      && t[8..12] == ": v "
      && TrimStart(t[12..21]) == rx
      && t[21..26] == "/s ^ "
      && TrimStart(t[26..35]) == tx
      && t[35..] == "/s"
  {
    var a, b, c := PadLeft(iface, 8), PadLeft(rx, 9), PadLeft(tx, 9);
    FixedLayout(a, b, c);
    TrimStartOfPadded(iface, 8);
    TrimStartOfPadded(rx, 9);
    TrimStartOfPadded(tx, 9);
  }

  /** Columns of the rate line once its three fields have their padded widths. */
  lemma FixedLayout(a: string, b: string, c: string)
    requires |a| == 8 && |b| == 9 && |c| == 9
    ensures var t := a + ": v " + b + "/s ^ " + c + "/s";
      && |t| == 37
      && t[..8] == a && t[8..12] == ": v " && t[12..21] == b
      && t[21..26] == "/s ^ " && t[26..35] == c && t[35..] == "/s"
  {
    var tail2 := "/s ^ " + c + "/s";
    var tail1 := ": v " + b + tail2;
    var t := a + ": v " + b + "/s ^ " + c + "/s";
    assert t == a + tail1;
    assert tail1[..4] == ": v " && tail1[4..13] == b && tail1[13..] == tail2;
    assert tail2[..5] == "/s ^ " && tail2[5..14] == c && tail2[14..] == "/s";
    assert t[8..12] == tail1[..4] && t[12..21] == tail1[4..13] && t[21..] == tail2;
  }

  /** A rendered rate never starts with whitespace: it starts with a digit. */
  lemma RenderingStartsWithDigit(bytes: u64)
    ensures |BytesToHuman(bytes)| > 0 && IsDigit(BytesToHuman(bytes)[0])
  {
    BytesToHumanReadsBack(bytes);
    var s := BytesToHuman(bytes);
    assert DigitRunLen(s) > 0;
  }

  /** The partner of `RateText` on rendered rates: when both renderings fit their
      9-character fields, each field reads back to a value that brackets its rate
      within one 1024th of the rate's unit. */
  lemma RateLineReadsBack(iface: string, rxRate: u64, txRate: u64)
    requires 0 < |iface| <= 8 && !IsWhitespace(iface[0])
    requires |BytesToHuman(rxRate)| <= 9 && |BytesToHuman(txRate)| <= 9
    ensures var t := RateText(iface, BytesToHuman(rxRate), BytesToHuman(txRate));
      && |t| == 37
      && ParseHuman(TrimStart(t[12..21])).Some?
      && Brackets(ParseHuman(TrimStart(t[12..21])).value, rxRate)
      && ParseHuman(TrimStart(t[26..35])).Some?
      && Brackets(ParseHuman(TrimStart(t[26..35])).value, txRate)
  {
    RenderingStartsWithDigit(rxRate);
    RenderingStartsWithDigit(txRate);
    RateTextReadsBack(iface, BytesToHuman(rxRate), BytesToHuman(txRate));
    BytesToHumanReadsBack(rxRate);
    BytesToHumanReadsBack(txRate);
  }

  /** A KiB rate can need 13 characters ("1023.1023 KiB"), more than its field of 9,
      and then pushes the rest of the line to the right. */
  lemma LongRateOverflowsField()
    ensures BytesToHuman(1024 * 1024 - 1) == "1023.1023 KiB"
    ensures |BytesToHuman(1024 * 1024 - 1)| == 13
  {
    var b: u64 := 1024 * 1024 - 1;
    assert b / KIB == 1023 && b % KIB == 1023;
    assert NatToString(1) == "1";
    assert NatToString(10) == NatToString(1) + "0";
    assert NatToString(102) == NatToString(10) + "2";
    assert NatToString(1023) == NatToString(102) + "3";
    assert BytesToHuman(b) == Fractional(1023, 1023, "KiB");
  }

  /** `get_rate`: the block named "rate", min_width 28, no colour, showing the
      interface name right-aligned to 8 and both rates right-aligned to 9. */
  function GetRate(iface: string, first: CounterFiles, second: CounterFiles): (r: Result<Block>)
    requires SpeedDefined(iface, first, second)
    ensures r.Ok? <==> NetSpeed(iface, first, second).Ok?
    ensures r.Err? ==> r.error == NetSpeed(iface, first, second).error
    ensures r.Ok? ==>
      var (rx, tx) := NetSpeed(iface, first, second).value;
      && r.value.name == "rate"
      && r.value.minWidth == Some(28)
      && r.value.color == None && r.value.urgent == None
      && r.value.fullText == RateText(iface, rx, tx)
  {
    var (rx, tx) :- NetSpeed(iface, first, second);
    Ok(Block("rate", RateText(iface, rx, tx), Some(28), None, None))
  }
}
