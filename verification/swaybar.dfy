/** The swaybar-protocol records of the status line: the header object and the
    block that every sampler produces (src/main.rs). */
module SwayBar {
  import opened Errors
  import opened Ints
  import opened Decimal

  const COLOR_RED: string := "#FF0000"
  const COLOR_YELLOW: string := "#E9F505"

  /** One block of the status line. Absent optional fields are not serialized. */
  datatype Block = Block(
    name: string,
    fullText: string,
    minWidth: Option<nat>,
    urgent: Option<bool>,
    color: Option<string>)

  /** A block with the given name and text and every other field at its default. */
  function NewBlock(name: string, fullText: string): (b: Block)
    ensures b.name == name && b.fullText == fullText
    ensures b.minWidth == None && b.urgent == None && b.color == None
  {
    Block(name, fullText, None, None, None)
  }

  /** The protocol header. */
  datatype ApiVersion = ApiVersion(version: u8, clickEvents: bool)

  /** The header the program announces: version 1, no click events. */
  const DEFAULT_HEADER: ApiVersion := ApiVersion(1, false)

  function BoolJson(b: bool): string {
    if b then "true" else "false"
  }

  /** Compact JSON of the header, with the fields in declaration order. */
  function HeaderJson(h: ApiVersion): (s: string)
    ensures |s| > 0 && s[0] == '{' && s[|s| - 1] == '}'
  {
    "{\"version\":" + NatToString(h.version) + ",\"click_events\":" + BoolJson(h.clickEvents) + "}"
  }

  /** The first line of the stream is exactly this text. */
  lemma DefaultHeaderText()
    ensures HeaderJson(DEFAULT_HEADER) == "{\"version\":1,\"click_events\":false}"
  {
    assert NatToString(1) == "1";
  }
}
