/**
 * The outbound side of the connector protocol: the wire frame that
 * `sendCommand` writes, and the fixed command names and payloads that the
 * typed command wrappers put into it.
 */
module Outbound {
  import opened Wrappers
  import opened Text

  /** The single wire frame for one command: `CMD:<name>|DATA:<payload>|END\n`. */
  function Frame(name: string, payload: string): string {
    "CMD:" + name + "|DATA:" + payload + "|END\n"
  }

  /**
   * How the receiving firmware can cut a frame back into its name and payload:
   * the name runs up to the first '|', which must open "|DATA:", and the payload
   * runs up to the closing "|END\n". Whatever it accepts is exactly a frame.
   */
  function ParseFrame(f: string): (r: Option<(string, string)>)
    ensures r.Some? ==> '|' !in r.value.0 && Frame(r.value.0, r.value.1) == f
  {
    if |f| >= 9 && StartsWith(f, "CMD:") && f[|f| - 5..] == "|END\n" then
      var mid := f[4..|f| - 5];
      var i := FirstIndex(mid, '|');
      if StartsWith(mid[i..], "|DATA:") then
        FrameParts(f, i);
        Some((mid[..i], mid[i + 6..]))
      else None
    else None
  }

  /** A text with the frame's opening, closing and data marker is the frame of the pieces between them. */
  lemma FrameParts(f: string, i: nat)
    requires |f| >= 9 && StartsWith(f, "CMD:") && f[|f| - 5..] == "|END\n"
    requires i <= |f| - 9 && StartsWith(f[4..|f| - 5][i..], "|DATA:")
    ensures var mid := f[4..|f| - 5];
      f == Frame(mid[..i], mid[i + 6..])
  {
    var mid := f[4..|f| - 5];
    assert mid[i..] == mid[i..][..6] + mid[i..][6..];
    assert mid == mid[..i] + "|DATA:" + mid[i + 6..];
    assert f == f[..4] + mid + f[|f| - 5..];
  }

  /** Every frame whose name holds no '|' is read back as the name and payload it was built from. */
  lemma ParseFrameOfFrame(name: string, payload: string)
    requires '|' !in name
    ensures ParseFrame(Frame(name, payload)) == Some((name, payload))
  {
    var f := Frame(name, payload);
    assert StartsWith(f, "CMD:") by { assert f[..4] == "CMD:"; }
    assert f[|f| - 5..] == "|END\n";
    var mid := f[4..|f| - 5];
    assert mid == name + "|DATA:" + payload;
    assert mid[|name|] == '|';
    var i := FirstIndex(mid, '|');
    assert i == |name|;
    assert mid[i..] == "|DATA:" + payload;
    assert mid[..i] == name;
    assert mid[i + 6..] == payload;
  }

  /** A frame is one line: its only newline is its final character, when name and payload hold none. */
  lemma FrameIsOneLine(name: string, payload: string)
    requires '\n' !in name && '\n' !in payload
    ensures var f := Frame(name, payload);
      FirstIndex(f, '\n') == |f| - 1
  {
    var f := Frame(name, payload);
    assert f == "CMD:" + name + "|DATA:" + payload + "|END" + "\n";
    forall j | 0 <= j < |f| - 1 ensures f[j] != '\n' {
      if j < 4 {
      } else if j < 4 + |name| {
        assert f[j] == name[j - 4];
      } else if j < 10 + |name| {
      } else if j < 10 + |name| + |payload| {
        assert f[j] == payload[j - 10 - |name|];
      }
    }
    assert f[|f| - 1] == '\n';
  }

  /** The commands the connector's typed wrappers send. */
  datatype Command =
    | NfcStart
    | NfcStop
    | NfcRead
    | TicketIssue(ticketType: string, quantity: int)
    | TicketReprint(ticketId: string)
    | TicketCancel(ticketId: string)
    | DrawerOpen
    | PrintTest
    | SystemReboot
    | GetInfo

  /** The defaults of `issueTicket(type = 'single', quantity = 1)`. */
  const DefaultTicketType: string := "single"
  const DefaultQuantity: int := 1

  /** The fixed frame name of each command. */
  function CommandName(c: Command): string {
    match c
    case NfcStart => "NFC_START"
    case NfcStop => "NFC_STOP"
    case NfcRead => "NFC_READ"
    case TicketIssue(_, _) => "TICKET_ISSUE"
    case TicketReprint(_) => "TICKET_REPRINT"
    case TicketCancel(_) => "TICKET_CANCEL"
    case DrawerOpen => "DRAWER_OPEN"
    case PrintTest => "PRINT_TEST"
    case SystemReboot => "SYSTEM_REBOOT"
    case GetInfo => "GET_INFO"
  }

  /** The payload of `issueTicket`: the type and the quantity joined by a comma. */
  function IssuePayload(ticketType: string, quantity: int): string {
    ticketType + "," + IntToDecimal(quantity)
  }

  /** The payload each command carries; commands without arguments carry "". */
  function CommandPayload(c: Command): string {
    match c
    case TicketIssue(t, q) => IssuePayload(t, q)
    case TicketReprint(id) => id
    case TicketCancel(id) => id
    case _ => ""
  }

  /** The frame a command's wrapper writes. */
  function CommandFrame(c: Command): string {
    Frame(CommandName(c), CommandPayload(c))
  }

  /**
   * Reads an issue payload back: the quantity is what follows the LAST comma,
   * so a ticket type that itself holds commas is still recovered; the
   * quantity must be written as `issueTicket` writes it.
   */
  function SplitIssuePayload(payload: string): (r: Option<(string, int)>)
    ensures r.Some? ==> payload == IssuePayload(r.value.0, r.value.1)
  {
    var i := LastIndex(payload, ',');
    if i < 0 then None
    else match ParseInt(payload[i + 1..])
      case None => None
      case Some(q) =>
        if IntToDecimal(q) != payload[i + 1..] then None
        else
          assert payload == payload[..i] + "," + payload[i + 1..];
          Some((payload[..i], q))
  }

  lemma IssuePayloadRoundTrip(ticketType: string, quantity: int)
    ensures SplitIssuePayload(IssuePayload(ticketType, quantity)) == Some((ticketType, quantity))
  {
    var d := IntToDecimal(quantity);
    var p := IssuePayload(ticketType, quantity);
    assert p[|ticketType|] == ',';
    assert forall j :: |ticketType| < j < |p| ==> p[j] == d[j - |ticketType| - 1];
    assert LastIndex(p, ',') == |ticketType|;
    assert p[|ticketType| + 1..] == d;
    assert p[..|ticketType|] == ticketType;
    IntDecimalRoundTrip(quantity);
  }

  /** The firmware's reading of a name and payload as one of the commands, or `None`. */
  function DecodeCommand(name: string, payload: string): (r: Option<Command>)
    ensures r.Some? ==> CommandName(r.value) == name && CommandPayload(r.value) == payload
  {
    if name == "TICKET_ISSUE" then
      match SplitIssuePayload(payload)
      case None => None
      case Some((t, q)) => Some(TicketIssue(t, q))
    else if name == "TICKET_REPRINT" then Some(TicketReprint(payload))
    else if name == "TICKET_CANCEL" then Some(TicketCancel(payload))
    else if payload != "" then None
    else if name == "NFC_START" then Some(NfcStart)
    else if name == "NFC_STOP" then Some(NfcStop)
    else if name == "NFC_READ" then Some(NfcRead)
    else if name == "DRAWER_OPEN" then Some(DrawerOpen)
    else if name == "PRINT_TEST" then Some(PrintTest)
    else if name == "SYSTEM_REBOOT" then Some(SystemReboot)
    else if name == "GET_INFO" then Some(GetInfo)
    else None
  }

  /** Each command is recovered from the name and payload it is sent with, so no two commands share a wire form. */
  lemma DecodeCommandRoundTrip(c: Command)
    ensures DecodeCommand(CommandName(c), CommandPayload(c)) == Some(c)
  {
    if c.TicketIssue? {
      IssuePayloadRoundTrip(c.ticketType, c.quantity);
    }
  }

  /** The firmware's reading of a whole frame as a command. */
  function ReadCommandFrame(f: string): (r: Option<Command>)
    ensures r.Some? ==> CommandFrame(r.value) == f
  {
    match ParseFrame(f)
    case None => None
    case Some((name, payload)) => DecodeCommand(name, payload)
  }

  /** Every command frame reads back as its command. */
  lemma CommandFrameRoundTrip(c: Command)
    ensures ReadCommandFrame(CommandFrame(c)) == Some(c)
  {
    ParseFrameOfFrame(CommandName(c), CommandPayload(c));
    DecodeCommandRoundTrip(c);
  }
}
