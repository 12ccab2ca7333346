/** CPU temperature (src/temp.rs): hwmon devices are indexed by the name they
    report, and the first preferred sensor with a `temp1_input` file is read. */
module Temp {
  import opened Errors
  import opened Ints
  import opened Decimal
  import opened Text
  import opened SwayBar

  /** Preferred sensor drivers, most preferred first. */
  const HWMON_NAMES: seq<string> := ["k10temp", "thinkpad", "coretemp"]

  const SYSFS_HWMON_PATH: string := "/sys/class/hwmon/"

  /** The hwmon file system as `get_temp` sees it. */
  datatype Hwmon = Hwmon(
    listing: Result<seq<string>>,        // the entries of the hwmon directory
    readName: string -> Result<string>,  // reading a `name` file, trimmed
    isFile: string -> bool,              // whether a path is a regular file
    readU64: string -> Result<u64>)      // reading a file as a `u64`

  function HwmonDir(subdir: string): string {
    SYSFS_HWMON_PATH + "/" + subdir
  }

  function NameFile(dir: string): string {
    dir + "/name"
  }

  function TempInput(dir: string): string {
    dir + "/temp1_input"
  }

  // ---------------------------------------------------------------- name map

  /** The loop filling `name_to_path`: each directory's name is read in listing
      order and inserted, so a later directory replaces an earlier one of the same
      name; the first failing read aborts. */
  function BuildNameMap(subdirs: seq<string>, readName: string -> Result<string>,
                        acc: map<string, string>): Result<map<string, string>>
  {
    if |subdirs| == 0 then Ok(acc)
    else
      var dir := HwmonDir(subdirs[0]);
      var name :- readName(NameFile(dir));
      BuildNameMap(subdirs[1..], readName, acc[name := dir])
  }

  /** Reference definition: the directory of the last listed device reporting `name`. */
  function LastNamed(subdirs: seq<string>, readName: string -> Result<string>, name: string): Option<string> {
    if |subdirs| == 0 then None
    else
      var later := LastNamed(subdirs[1..], readName, name);
      if later.Some? then later
      else if readName(NameFile(HwmonDir(subdirs[0]))) == Ok(name) then Some(HwmonDir(subdirs[0]))
      else None
  }

  /** Every name read succeeds. */
  predicate NamesReadable(subdirs: seq<string>, readName: string -> Result<string>) {
    forall i :: 0 <= i < |subdirs| ==> readName(NameFile(HwmonDir(subdirs[i]))).Ok?
  }

  /** Reference definition: the error of the first unreadable name, if any. */
  function FirstNameError(subdirs: seq<string>, readName: string -> Result<string>): Option<CliError> {
    if |subdirs| == 0 then None
    else
      var r := readName(NameFile(HwmonDir(subdirs[0])));
      if r.Err? then Some(r.error) else FirstNameError(subdirs[1..], readName)
  }

  /** The map is built exactly when every name can be read, and then maps each
      reported name to the LAST directory reporting it (keys already in `acc` stay
      when no directory reports them); otherwise the first read error comes out. */
  lemma {:induction false} NameMapKeepsLast(subdirs: seq<string>, readName: string -> Result<string>,
                                            acc: map<string, string>)
    ensures BuildNameMap(subdirs, readName, acc).Ok? <==> NamesReadable(subdirs, readName)
    ensures BuildNameMap(subdirs, readName, acc).Err? ==>
      FirstNameError(subdirs, readName) == Some(BuildNameMap(subdirs, readName, acc).error)
    ensures BuildNameMap(subdirs, readName, acc).Ok? ==>
      var m := BuildNameMap(subdirs, readName, acc).value;
      forall name ::
        && (name in m <==> LastNamed(subdirs, readName, name).Some? || name in acc)
        && (LastNamed(subdirs, readName, name).Some? ==> name in m && m[name] == LastNamed(subdirs, readName, name).value)
        && (LastNamed(subdirs, readName, name).None? && name in acc ==> m[name] == acc[name])
    decreases |subdirs|
  {
    if |subdirs| > 0 {
      var dir := HwmonDir(subdirs[0]);
      var r := readName(NameFile(dir));
      if r.Ok? {
        NameMapKeepsLast(subdirs[1..], readName, acc[r.value := dir]);
        if NamesReadable(subdirs[1..], readName) {
          assert NamesReadable(subdirs, readName) by {
            forall i | 0 <= i < |subdirs|
              ensures readName(NameFile(HwmonDir(subdirs[i]))).Ok?
            {
              if i > 0 {
                assert subdirs[i] == subdirs[1..][i - 1];
              }
            }
          }
        } else {
          var i :| 0 <= i < |subdirs[1..]| && readName(NameFile(HwmonDir(subdirs[1..][i]))).Err?;
          assert subdirs[1..][i] == subdirs[i + 1];
        }
      } else {
        assert !NamesReadable(subdirs, readName) by {
          assert readName(NameFile(HwmonDir(subdirs[0]))).Err?;
        }
      }
    }
  }

  // ---------------------------------------------------------------- selection

  /** A preferred name is usable when some directory reports it and that
      directory has a `temp1_input` regular file. */
  predicate Usable(name: string, m: map<string, string>, isFile: string -> bool) {
    name in m && isFile(TempInput(m[name]))
  }

  /** The loop over the preferred names: the first usable sensor's reading in whole
      degrees (millidegrees divided by 1000, truncated), or 0 when none is usable;
      a failing read of the chosen sensor is an error. */
  function SelectDegree(names: seq<string>, m: map<string, string>, fs: Hwmon): Result<u64> {
    if |names| == 0 then Ok(0)
    else if Usable(names[0], m, fs.isFile) then
      var milli :- fs.readU64(TempInput(m[names[0]]));
      Ok(milli / 1000)
    else SelectDegree(names[1..], m, fs)
  }

  /** The reading of sensor `name` in whole degrees, or its error. */
  function DegreeOf(name: string, m: map<string, string>, fs: Hwmon): Result<u64>
    requires name in m
  {
    var milli :- fs.readU64(TempInput(m[name]));
    Ok(milli / 1000)
  }

  /** `names[i]` is usable and no name before it is. */
  predicate FirstUsableAt(names: seq<string>, m: map<string, string>, isFile: string -> bool, i: int) {
    0 <= i < |names| && Usable(names[i], m, isFile) &&
    forall j :: 0 <= j < i ==> !Usable(names[j], m, isFile)
  }

  /** Selection picks the first usable name: names before it (absent, or without a
      `temp1_input` file) are skipped, names after it are never looked at; with no
      usable name the degree is 0. */
  lemma {:induction false} SelectsFirstUsable(names: seq<string>, m: map<string, string>, fs: Hwmon)
    ensures (forall i :: 0 <= i < |names| ==> !Usable(names[i], m, fs.isFile)) ==>
      SelectDegree(names, m, fs) == Ok(0)
    ensures forall i :: FirstUsableAt(names, m, fs.isFile, i) ==>
      SelectDegree(names, m, fs) == DegreeOf(names[i], m, fs)
    decreases |names|
  {
    if |names| > 0 {
      SelectsFirstUsable(names[1..], m, fs);
      forall i | FirstUsableAt(names, m, fs.isFile, i)
        ensures SelectDegree(names, m, fs) == DegreeOf(names[i], m, fs)
      {
        if i > 0 {
          assert names[i] == names[1..][i - 1];
          forall j | 0 <= j < i - 1
            ensures !Usable(names[1..][j], m, fs.isFile)
          {
            assert names[1..][j] == names[j + 1];
          }
          assert FirstUsableAt(names[1..], m, fs.isFile, i - 1);
        }
      }
      if forall i :: 0 <= i < |names| ==> !Usable(names[i], m, fs.isFile) {
        forall j | 0 <= j < |names| - 1
          ensures !Usable(names[1..][j], m, fs.isFile)
        {
          assert names[1..][j] == names[j + 1];
        }
      }
    }
  }

  // ---------------------------------------------------------------- block

  /** Red from 80 degrees up, no colour below. */
  function TempColor(degree: nat): (c: Option<string>)
    ensures c == Some(COLOR_RED) <==> degree >= 80
    ensures c == None <==> degree < 80
  {
    if degree >= 80 then Some(COLOR_RED) else None
  }

  /** `format!("🌡: {degree:>2}°C")`, min_width 8. */
  function TempBlock(degree: nat): Block {
    Block("temp", "\U{1F321}: " + PadLeft(NatToString(degree), 2) + "\U{00B0}C",
          Some(8), None, TempColor(degree))
  }

  /** `get_temp`: list the hwmon devices, index them by name, read the preferred
      sensor. Listing and name-read errors abort; a missing sensor is not an error. */
  function GetTemp(fs: Hwmon): (r: Result<Block>)
    ensures fs.listing.Err? ==> r == Err(fs.listing.error)
    ensures r.Ok? ==> fs.listing.Ok? && NamesReadable(fs.listing.value, fs.readName)
    ensures r.Ok? ==>
      && r.value.name == "temp"
      && r.value.minWidth == Some(8)
      && exists degree: u64 :: r.value == TempBlock(degree)
  {
    var subdirs :- fs.listing;
    NameMapKeepsLast(subdirs, fs.readName, map[]);
    var m :- BuildNameMap(subdirs, fs.readName, map[]);
    var degree :- SelectDegree(HWMON_NAMES, m, fs);
    Ok(TempBlock(degree))
  }

  /** With a readable listing and names but no usable preferred sensor, the block
      still appears, showing 0 degrees without colour. */
  lemma NoSensorShowsZero(fs: Hwmon)
    requires fs.listing.Ok? && BuildNameMap(fs.listing.value, fs.readName, map[]).Ok?
    requires var m := BuildNameMap(fs.listing.value, fs.readName, map[]).value;
      forall i :: 0 <= i < |HWMON_NAMES| ==> !Usable(HWMON_NAMES[i], m, fs.isFile)
    ensures GetTemp(fs) == Ok(TempBlock(0))
    ensures GetTemp(fs).value.color == None
  {
    NameMapKeepsLast(fs.listing.value, fs.readName, map[]);
    SelectsFirstUsable(HWMON_NAMES, BuildNameMap(fs.listing.value, fs.readName, map[]).value, fs);
  }

  /** When the first usable preferred sensor is `HWMON_NAMES[i]`, the block shows
      its reading; the map it is looked up in is the last-directory-wins map. */
  lemma GetTempReadsFirstUsable(fs: Hwmon, i: nat)
    requires fs.listing.Ok? && BuildNameMap(fs.listing.value, fs.readName, map[]).Ok?
    requires FirstUsableAt(HWMON_NAMES, BuildNameMap(fs.listing.value, fs.readName, map[]).value, fs.isFile, i)
    ensures var d := DegreeOf(HWMON_NAMES[i], BuildNameMap(fs.listing.value, fs.readName, map[]).value, fs);
      && (d.Ok? ==> GetTemp(fs) == Ok(TempBlock(d.value)))
      && (d.Err? ==> GetTemp(fs) == Err(d.error))
  {
    SelectsFirstUsable(HWMON_NAMES, BuildNameMap(fs.listing.value, fs.readName, map[]).value, fs);
  }
}
