/**
 * The ESP32 connector object: its connection flags, the guarded `sendCommand`
 * and its typed wrappers, the per-chunk processing of inbound text, and the
 * disconnect teardown.
 *
 * The serial port, its reader and its writer are represented only by whether
 * they are present. What the writer receives is the log `written`; what the
 * UI, the NFC callback and the document's event bus receive is the log
 * `events`. Outcomes decided by the browser or the device (whether a port is
 * granted and opens, whether a write succeeds, what a read yields) are
 * parameters.
 */
module Connector {
  import opened Wrappers
  import opened Text
  import opened Outbound
  import opened Inbound

  /** The message of the error `sendCommand` throws without a connection. */
  const NotConnectedMessage: string := "Not connected to ESP32"
  /** The message `connect` reports on success. */
  const ConnectedMessage: string := "Connected successfully"

  /** What the browser does when `connect` asks for a port and opens it. */
  datatype PortOutcome =
    | PortRefused(reason: string)   // requestPort rejects (no port chosen, permission denied)
    | OpenFailed(reason: string)    // a port was granted but open() rejects (device busy)
    | Opened                        // the port is open and its reader and writer are set up

  /** What one `reader.read()` of the read loop yields. */
  datatype ReadResult = Chunk(value: string) | EndOfStream | ReadError

  /** What the read loop has caused so far, the last-seen UID, and whether the loop still runs. */
  datatype ReadState = ReadState(events: seq<Event>, lastUid: Option<string>, reading: bool)

  /**
   * One turn of the read loop: the end of the stream or a failed read ends it;
   * an empty chunk is skipped; any other chunk is processed, and ends the loop
   * when a line of it throws. A loop that has ended takes no more turns.
   */
  function ReadTurn(s: ReadState, result: ReadResult, h: Hooks): ReadState {
    if !s.reading then s
    else match result
      case EndOfStream => s.(reading := false)
      case ReadError => s.(reading := false)
      case Chunk(value) =>
        if value == "" then s
        else
          var c := ProcessChunk(value, h, s.lastUid);
          ReadState(s.events + c.events, c.lastUid, !c.aborted)
  }

  /** The read loop over the results the reader yields, in order, from state `s`. */
  function ReadLoop(results: seq<ReadResult>, h: Hooks, s: ReadState): ReadState
    decreases |results|
  {
    if results == [] then s
    else ReadTurn(ReadLoop(results[..|results| - 1], h, s), results[|results| - 1], h)
  }

  lemma ReadLoopNext(results: seq<ReadResult>, i: nat, h: Hooks, s: ReadState)
    requires i < |results|
    ensures ReadLoop(results[..i + 1], h, s) == ReadTurn(ReadLoop(results[..i], h, s), results[i], h)
  {
    assert results[..i + 1][..i] == results[..i];
  }

  /** Once the read loop has ended, no later read result changes anything. */
  lemma {:induction false} StoppedIsFinal(results: seq<ReadResult>, k: nat, h: Hooks, s: ReadState)
    requires k <= |results|
    requires !ReadLoop(results[..k], h, s).reading
    ensures ReadLoop(results, h, s) == ReadLoop(results[..k], h, s)
    decreases |results| - k
  {
    if k < |results| {
      var init := results[..|results| - 1];
      assert init[..k] == results[..k];
      StoppedIsFinal(init, k, h, s);
    } else {
      assert results[..k] == results;
    }
  }

  /** A loop that runs to the end of its results saw neither the end of the stream nor a failed read. */
  lemma {:induction false} RunningMeansNoEnd(results: seq<ReadResult>, h: Hooks, s: ReadState)
    requires ReadLoop(results, h, s).reading
    ensures s.reading
    ensures forall i :: 0 <= i < |results| ==> results[i].Chunk?
    decreases |results|
  {
    if results != [] {
      var init := results[..|results| - 1];
      assert ReadLoop(init, h, s).reading;
      RunningMeansNoEnd(init, h, s);
      assert forall i :: 0 <= i < |init| ==> init[i] == results[i];
    }
  }

  /**
   * The effect `sendCommand` has on the written log and its reply: without a
   * connection and a writer it throws the not-connected error and writes
   * nothing; otherwise it replies with whether the write succeeded, and only a
   * successful write appends the frame.
   */
  predicate SendsFrame(ready: bool, writeOk: bool, frame: string,
                       before: seq<string>, after: seq<string>, r: Result<bool, string>)
  {
    if !ready then r == Failure(NotConnectedMessage) && after == before
    else r == Success(writeOk) && after == before + (if writeOk then [frame] else [])
  }

  class Esp32Connector {
    const baudRate: nat
    var connected: bool          // isConnected
    var hasPort: bool            // port !== null
    var hasReader: bool          // reader !== null
    var hasWriter: bool          // writer !== null
    var reading: bool            // the read loop is running
    var hooks: Hooks             // nfcCallback !== null, and which of updateUI, handleTicketMessage
                                 // and handleErrorMessage the page has attached to the instance
    var lastCardUID: Option<string>
    var written: seq<string>     // every frame handed to the writer, in order
    var events: seq<Event>       // every observation of inbound data, in order

    /** A connection always has its port, reader and writer; only a reader can be read. */
    ghost predicate Valid()
      reads this
    {
      (connected ==> hasPort && hasReader && hasWriter) && (reading ==> hasReader)
    }

    constructor ()
      ensures Valid()
      ensures baudRate == 115200
      ensures !connected && !hasPort && !hasReader && !hasWriter && !reading && hooks == AsWritten
      ensures lastCardUID == None && written == [] && events == []
    {
      baudRate := 115200;
      connected, hasPort, hasReader, hasWriter, reading := false, false, false, false, false;
      hooks := AsWritten;
      lastCardUID := None;
      written, events := [], [];
    }

    /**
     * `connect`: a refused port changes nothing; a port that fails to open is
     * kept but the connector stays as it was; an opened port gets its reader and
     * writer, the connector becomes connected and the read loop starts.
     */
    method Connect(outcome: PortOutcome) returns (success: bool, message: string)
      requires Valid()
      modifies this`connected, this`hasPort, this`hasReader, this`hasWriter, this`reading
      ensures Valid()
      ensures success <==> outcome.Opened?
      ensures message == if outcome.Opened? then ConnectedMessage else outcome.reason
      ensures outcome.PortRefused? ==>
        connected == old(connected) && hasPort == old(hasPort) && hasReader == old(hasReader)
        && hasWriter == old(hasWriter) && reading == old(reading)
      ensures outcome.OpenFailed? ==>
        hasPort && connected == old(connected) && hasReader == old(hasReader)
        && hasWriter == old(hasWriter) && reading == old(reading)
      ensures outcome.Opened? ==> connected && hasPort && hasReader && hasWriter && reading
    {
      match outcome
      case PortRefused(reason) =>
        success, message := false, reason;
      case OpenFailed(reason) =>
        hasPort := true;
        success, message := false, reason;
      case Opened =>
        hasPort := true;
        hasReader, hasWriter := true, true;
        connected := true;
        reading := true;
        success, message := true, ConnectedMessage;
    }

    /**
     * `disconnect`: cancelling the reader ends the read loop, and afterwards the
     * connector is disconnected and holds no port. The reader and writer fields
     * are not cleared, as in the source.
     */
    method Disconnect()
      requires Valid()
      modifies this`connected, this`hasPort, this`reading
      ensures Valid()
      ensures !connected && !hasPort && !reading
    {
      reading := false;
      connected := false;
      hasPort := false;
    }

    /**
     * `sendCommand(command, data = '')`: refuses without a connection and a
     * writer, otherwise writes exactly one frame `CMD:<name>|DATA:<payload>|END\n`.
     * A failed write replies `false` and leaves the connection flag alone.
     */
    method SendCommand(writeOk: bool, name: string, payload: string := "") returns (r: Result<bool, string>)
      modifies this`written
      ensures SendsFrame(old(connected && hasWriter), writeOk, Frame(name, payload), old(written), written, r)
    {
      if !connected || !hasWriter {
        return Failure(NotConnectedMessage);
      }
      var fullCommand := Frame(name, payload);
      if writeOk {
        written := written + [fullCommand];
        r := Success(true);
      } else {
        r := Success(false);
      }
    }

    method StartNfcSearch(writeOk: bool) returns (r: Result<bool, string>)
      modifies this`written
      ensures SendsFrame(old(connected && hasWriter), writeOk, Frame("NFC_START", ""), old(written), written, r)
      ensures Frame("NFC_START", "") == CommandFrame(NfcStart)
    {
      r := SendCommand(writeOk, "NFC_START");
    }

    method StopNfcSearch(writeOk: bool) returns (r: Result<bool, string>)
      modifies this`written
      ensures SendsFrame(old(connected && hasWriter), writeOk, Frame("NFC_STOP", ""), old(written), written, r)
      ensures Frame("NFC_STOP", "") == CommandFrame(NfcStop)
    {
      r := SendCommand(writeOk, "NFC_STOP");
    }

    method ReadNfcCard(writeOk: bool) returns (r: Result<bool, string>)
      modifies this`written
      ensures SendsFrame(old(connected && hasWriter), writeOk, Frame("NFC_READ", ""), old(written), written, r)
      ensures Frame("NFC_READ", "") == CommandFrame(NfcRead)
    {
      r := SendCommand(writeOk, "NFC_READ");
    }

    /** `issueTicket(type = 'single', quantity = 1)`: the payload is the type, a comma and the quantity, an integer. */
    method IssueTicket(writeOk: bool, ticketType: string := DefaultTicketType, quantity: int := DefaultQuantity)
      returns (r: Result<bool, string>)
      modifies this`written
      ensures SendsFrame(old(connected && hasWriter), writeOk,
                         Frame("TICKET_ISSUE", ticketType + "," + IntToDecimal(quantity)), old(written), written, r)
      ensures Frame("TICKET_ISSUE", ticketType + "," + IntToDecimal(quantity)) == CommandFrame(TicketIssue(ticketType, quantity))
    {
      r := SendCommand(writeOk, "TICKET_ISSUE", ticketType + "," + IntToDecimal(quantity));
    }

    method ReprintTicket(writeOk: bool, ticketId: string) returns (r: Result<bool, string>)
      modifies this`written
      ensures SendsFrame(old(connected && hasWriter), writeOk, Frame("TICKET_REPRINT", ticketId), old(written), written, r)
      ensures Frame("TICKET_REPRINT", ticketId) == CommandFrame(TicketReprint(ticketId))
    {
      r := SendCommand(writeOk, "TICKET_REPRINT", ticketId);
    }

    method CancelTicket(writeOk: bool, ticketId: string) returns (r: Result<bool, string>)
      modifies this`written
      ensures SendsFrame(old(connected && hasWriter), writeOk, Frame("TICKET_CANCEL", ticketId), old(written), written, r)
      ensures Frame("TICKET_CANCEL", ticketId) == CommandFrame(TicketCancel(ticketId))
    {
      r := SendCommand(writeOk, "TICKET_CANCEL", ticketId);
    }

    method OpenCashDrawer(writeOk: bool) returns (r: Result<bool, string>)
      modifies this`written
      ensures SendsFrame(old(connected && hasWriter), writeOk, Frame("DRAWER_OPEN", ""), old(written), written, r)
      ensures Frame("DRAWER_OPEN", "") == CommandFrame(DrawerOpen)
    {
      r := SendCommand(writeOk, "DRAWER_OPEN");
    }

    method PrintTestPage(writeOk: bool) returns (r: Result<bool, string>)
      modifies this`written
      ensures SendsFrame(old(connected && hasWriter), writeOk, Frame("PRINT_TEST", ""), old(written), written, r)
      ensures Frame("PRINT_TEST", "") == CommandFrame(PrintTest)
    {
      r := SendCommand(writeOk, "PRINT_TEST");
    }

    method RebootSystem(writeOk: bool) returns (r: Result<bool, string>)
      modifies this`written
      ensures SendsFrame(old(connected && hasWriter), writeOk, Frame("SYSTEM_REBOOT", ""), old(written), written, r)
      ensures Frame("SYSTEM_REBOOT", "") == CommandFrame(SystemReboot)
    {
      r := SendCommand(writeOk, "SYSTEM_REBOOT");
    }

    method GetSystemInfo(writeOk: bool) returns (r: Result<bool, string>)
      modifies this`written
      ensures SendsFrame(old(connected && hasWriter), writeOk, Frame("GET_INFO", ""), old(written), written, r)
      ensures Frame("GET_INFO", "") == CommandFrame(GetInfo)
    {
      r := SendCommand(writeOk, "GET_INFO");
    }

    /**
     * `handleNFCMessage`: the text after the first four characters is the body;
     * the callback, if any, receives it; a `UID:` body updates the last-seen UID
     * and raises `nfcDetected`.
     */
    method HandleNfcMessage(line: string)
      modifies this`events, this`lastCardUID
      ensures var body := Substring(line, 4);
        && events == old(events) + NfcEvents(body, hooks.nfcCallback)
        && lastCardUID == if NfcUid(body).Some? then NfcUid(body) else old(lastCardUID)
    {
      var data := Substring(line, 4);
      if hooks.nfcCallback {
        events := events + [NfcCallback(data)];
      }
      if StartsWith(data, UidMarker) {
        var uid := Substring(data, 4);
        lastCardUID := Some(uid);
        events := events + [NfcDetected(uid)];
      }
    }

    /** `handleStatusMessage`: the text after the first seven characters is raised as `statusUpdate`. */
    method HandleStatusMessage(line: string)
      modifies this`events
      ensures events == old(events) + [StatusUpdate(Substring(line, 7))]
    {
      var status := Substring(line, 7);
      events := events + [StatusUpdate(status)];
    }

    /** `this.handleTicketMessage(line)`: throws when the page has not supplied the method. */
    method HandleTicketMessage(line: string) returns (threw: bool)
      modifies this`events
      ensures threw <==> !hooks.ticketHandler
      ensures events == old(events) + if threw then [] else [TicketMessage(line)]
    {
      if !hooks.ticketHandler {
        return true;
      }
      threw := false;
      events := events + [TicketMessage(line)];
    }

    /** `this.handleErrorMessage(line)`: throws when the page has not supplied the method. */
    method HandleErrorMessage(line: string) returns (threw: bool)
      modifies this`events
      ensures threw <==> !hooks.errorHandler
      ensures events == old(events) + if threw then [] else [ErrorMessage(line)]
    {
      if !hooks.errorHandler {
        return true;
      }
      threw := false;
      events := events + [ErrorMessage(line)];
    }

    /** `this.updateUI(line)`: echoes the line, or throws when the page has not supplied the method. */
    method UpdateUI(line: string) returns (threw: bool)
      modifies this`events
      ensures threw <==> !hooks.updateUI
      ensures events == old(events) + if threw then [] else [RawLine(line)]
    {
      if !hooks.updateUI {
        return true;
      }
      threw := false;
      events := events + [RawLine(line)];
    }

    /**
     * The callback `processIncomingData` runs for each line: blank lines are
     * skipped; each prefix goes to its handler; then the line is echoed.
     * `threw` reports a call to a missing member, which abandons the chunk.
     */
    method ProcessLine(line: string) returns (threw: bool)
      modifies this`events, this`lastCardUID
      ensures threw == HandleLine(line, hooks).threw
      ensures events == old(events) + HandleLine(line, hooks).events
      ensures lastCardUID == UidAfter(line, old(lastCardUID))
    {
      ghost var log0 := events;
      // what the line's handler causes before the echo
      ghost var caused: seq<Event> := [];
      // The source's branches, tested in its order: blank, NFC:, STATUS:, TICKET:, ERROR:.
      match Classify(line) {
      case Blank =>
        LineBlank(line, hooks, lastCardUID);
        assert log0 + [] == log0;
        return false;
      case Nfc =>
        LineNfc(line, hooks, lastCardUID);
        caused := NfcEvents(Substring(line, 4), hooks.nfcCallback);
        HandleNfcMessage(line);
      case Status =>
        LineStatus(line, hooks, lastCardUID);
        caused := [StatusUpdate(Substring(line, 7))];
        HandleStatusMessage(line);
      case Ticket =>
        LineTicket(line, hooks, lastCardUID);
        threw := HandleTicketMessage(line);
        if threw {
          assert log0 + [] == log0;
          return;
        }
        caused := [TicketMessage(line)];
      case Error =>
        LineError(line, hooks, lastCardUID);
        threw := HandleErrorMessage(line);
        if threw {
          assert log0 + [] == log0;
          return;
        }
        caused := [ErrorMessage(line)];
      case Unclassified =>
        LineOther(line, hooks, lastCardUID);
        assert log0 + [] == log0;
      }
      assert events == log0 + caused;
      threw := UpdateUI(line);
      if threw {
        assert events == log0 + caused + [];
      }
    }

    /**
     * `processIncomingData`: splits one chunk on '\n' and handles its lines in
     * order, as `Inbound.ProcessChunk` specifies. `aborted` reports a line that
     * threw; its throw ends the chunk at that line.
     */
    method ProcessIncomingData(data: string) returns (aborted: bool)
      modifies this`events, this`lastCardUID
      ensures var r := ProcessChunk(data, hooks, old(lastCardUID));
        && aborted == r.aborted
        && events == old(events) + r.events
        && lastCardUID == r.lastUid
    {
      var lines := SplitLines(data);
      aborted := ForEachLine(lines);
    }

    /** The `forEach` over the split lines: each line in turn, until one throws. */
    method ForEachLine(lines: seq<string>) returns (aborted: bool)
      modifies this`events, this`lastCardUID
      ensures var r := RunLines(lines, hooks, old(lastCardUID));
        && aborted == r.aborted
        && events == old(events) + r.events
        && lastCardUID == r.lastUid
    {
      ghost var log0, uid0 := events, lastCardUID;
      var i := 0;
      aborted := false;
      while i < |lines| && !aborted
        invariant 0 <= i <= |lines|
        invariant var r := RunLines(lines[..i], hooks, uid0);
          && r.aborted == aborted
          && events == log0 + r.events
          && lastCardUID == r.lastUid
      {
        ghost var prev := RunLines(lines[..i], hooks, uid0);
        RunLinesNext(lines, i, hooks, uid0);
        aborted := ProcessLine(lines[i]);
        Regroup(log0, prev.events, HandleLine(lines[i], hooks).events);
        i := i + 1;
      }
      if aborted {
        AbortIsFinal(lines, i, hooks, uid0);
      } else {
        assert lines[..i] == lines;
      }
    }

    /**
     * One turn of the read loop: a non-empty chunk is processed; end of stream,
     * a read error, or a chunk that throws ends the loop. None of them changes
     * the connection flag.
     */
    method ReadStep(result: ReadResult)
      requires Valid() && reading
      modifies this`events, this`lastCardUID, this`reading
      ensures Valid()
      ensures result.Chunk? ==>
        var r := ProcessChunk(result.value, hooks, old(lastCardUID));
        && events == old(events) + r.events
        && lastCardUID == r.lastUid
        && (reading <==> !r.aborted)
      ensures !result.Chunk? ==> !reading && events == old(events) && lastCardUID == old(lastCardUID)
      ensures ReadState(events, lastCardUID, reading) == ReadTurn(ReadState(old(events), old(lastCardUID), true), result, hooks)
    {
      match result
      case EndOfStream =>
        reading := false;
      case ReadError =>
        reading := false;
      case Chunk(value) =>
        if value != "" {
          var aborted := ProcessIncomingData(value);
          if aborted {
            reading := false;
          }
        } else {
          ProcessChunkEmpty(hooks, lastCardUID);
        }
    }

    /**
     * `readData`: the loop that reads until the stream ends, a read fails, or
     * a chunk throws. `results` are what the reader yields, in order. The
     * loop never touches the connection flag, so after it ends the connector
     * still reports itself connected if it was.
     */
    method ReadData(results: seq<ReadResult>)
      requires Valid() && reading
      modifies this`events, this`lastCardUID, this`reading
      ensures Valid()
      ensures connected == old(connected)
      ensures ReadState(events, lastCardUID, reading) == ReadLoop(results, hooks, ReadState(old(events), old(lastCardUID), true))
    {
      ghost var s0 := ReadState(events, lastCardUID, true);
      var i := 0;
      while i < |results| && reading
        invariant 0 <= i <= |results|
        invariant Valid()
        invariant ReadState(events, lastCardUID, reading) == ReadLoop(results[..i], hooks, s0)
      {
        ReadLoopNext(results, i, hooks, s0);
        ReadStep(results[i]);
        i := i + 1;
      }
      if reading {
        assert results[..i] == results;
      } else {
        StoppedIsFinal(results, i, hooks, s0);
      }
    }
  }
}
