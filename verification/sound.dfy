/** Audio volume (src/sound.rs): the output of `wpctl get-volume` for the default
    sink, `Volume: <fraction>` optionally followed by ` [MUTED]`. */
module Sound {
  import opened Errors
  import opened Ints
  import opened Decimal
  import opened Text
  import opened SwayBar

  const VOLUME_PREFIX: string := "Volume: "
  const MUTED_SUFFIX: string := " [MUTED]"
  const EXTRACT_ERROR: string := "Failed to extract sound volume: "

  /** What the volume line says once the prefix is gone: the numeric part, and
      whether the sink is muted (the suffix is removed from the numeric part). */
  function SplitMuted(vol: string): (r: (string, bool))
    ensures r.1 <==> IsSuffix(MUTED_SUFFIX, vol)
    ensures r.1 ==> r.0 + MUTED_SUFFIX == vol
    ensures !r.1 ==> r.0 == vol
  {
    match StripSuffix(vol, MUTED_SUFFIX)
    case Some(v) => (v, true)
    case None => (vol, false)
  }

  function SoundBlock(volume: u32, muted: bool): Block {
    if muted then Block("sound", "\U{1F507}: " + NatToString(volume) + "%", None, None, Some(COLOR_YELLOW))
    else Block("sound", "\U{266A}: " + NatToString(volume) + "%", None, None, None)
  }

  /** `get_sound`. `output` is the command's captured stdout decoded as UTF-8 (or
      the error of running or decoding it); `parseVolume` is the `f32` parse of the
      numeric part scaled to a whole percentage. Without the prefix the trimmed
      output is quoted in the error; an unparseable number is an error. */
  function GetSound(output: Result<string>, parseVolume: string -> Result<u32>): (r: Result<Block>)
    ensures output.Err? ==> r == Err(output.error)
    ensures output.Ok? && !(VOLUME_PREFIX <= Trim(output.value)) ==>
      r == Err(CliError(EXTRACT_ERROR + Trim(output.value)))
    ensures r.Ok? ==> r.value.name == "sound" && r.value.minWidth == None
    ensures output.Ok? && VOLUME_PREFIX <= Trim(output.value) ==>
      var rest := Trim(output.value)[|VOLUME_PREFIX|..];
      var muted := IsSuffix(MUTED_SUFFIX, rest);
      var number := if muted then rest[..|rest| - |MUTED_SUFFIX|] else rest;
      && (parseVolume(number).Err? ==> r == Err(parseVolume(number).error))
      && (parseVolume(number).Ok? ==> r == Ok(SoundBlock(parseVolume(number).value, muted)))
  {
    var out :- output;
    var trimmed := Trim(out);
    match StripPrefix(trimmed, VOLUME_PREFIX)
    case None => Err(CliError(EXTRACT_ERROR + trimmed))
    case Some(vol) =>
      var (number, muted) := SplitMuted(vol);
      var volume :- parseVolume(number);
      Ok(SoundBlock(volume, muted))
  }

  /** Muted shows the muted-speaker symbol in yellow; unmuted shows a note without
      colour. */
  lemma SoundColour(volume: u32, muted: bool)
    ensures SoundBlock(volume, muted).color == (if muted then Some(COLOR_YELLOW) else None)
    ensures muted ==> "\U{1F507}: " <= SoundBlock(volume, muted).fullText
    ensures !muted ==> "\U{266A}: " <= SoundBlock(volume, muted).fullText
  {
  }

  /** The line wpctl prints for a volume text `v`. */
  function WpctlLine(v: string, muted: bool): string {
    VOLUME_PREFIX + v + (if muted then MUTED_SUFFIX else "")
  }

  /** Reading a printed line recovers the muted flag and hands exactly the volume
      text to the number parser, whatever whitespace surrounds the line. */
  lemma ReadsWpctlLine(v: string, muted: bool, pad: string, parseVolume: string -> Result<u32>)
    requires |v| > 0 && !IsWhitespace(v[|v| - 1])
    requires !muted ==> !IsSuffix(MUTED_SUFFIX, v)
    requires forall i :: 0 <= i < |pad| ==> IsWhitespace(pad[i])
    requires parseVolume(v).Ok?
    ensures GetSound(Ok(WpctlLine(v, muted) + pad), parseVolume) == Ok(SoundBlock(parseVolume(v).value, muted))
  {
    var rest := v + (if muted then MUTED_SUFFIX else "");
    var line := WpctlLine(v, muted);
    assert line == VOLUME_PREFIX + rest;
    assert line[|line| - 1] == rest[|rest| - 1];
    TrimTrailingPad(line, pad);
    assert line[..|VOLUME_PREFIX|] == VOLUME_PREFIX;
    assert line[|VOLUME_PREFIX|..] == rest;
    SplitPrinted(v, muted);
  }

  /** The numeric part and the muted flag come back out of the printed rest. */
  lemma SplitPrinted(v: string, muted: bool)
    requires !muted ==> !IsSuffix(MUTED_SUFFIX, v)
    ensures SplitMuted(v + (if muted then MUTED_SUFFIX else "")) == (v, muted)
  {
    if muted {
      var rest := v + MUTED_SUFFIX;
      assert rest[|rest| - |MUTED_SUFFIX|..] == MUTED_SUFFIX;
      assert rest[..|rest| - |MUTED_SUFFIX|] == v;
    } else {
      assert v + "" == v;
    }
  }

  /** Trailing whitespace is dropped by trimming. */
  lemma {:induction false} TrimTrailingPad(s: string, pad: string)
    requires |s| > 0 && !IsWhitespace(s[0]) && !IsWhitespace(s[|s| - 1])
    requires forall i :: 0 <= i < |pad| ==> IsWhitespace(pad[i])
    ensures Trim(s + pad) == s
    decreases |pad|
  {
    if |pad| == 0 {
      assert s + pad == s;
      TrimUntouched(s);
    } else {
      var t := s + pad;
      assert TrimStart(t) == t;
      var shorter := pad[..|pad| - 1];
      assert t[..|t| - 1] == s + shorter;
      TrimTrailingPad(s, shorter);
      assert TrimStart(s + shorter) == s + shorter;
    }
  }
}
