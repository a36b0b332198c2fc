/**
 * The inbound side of the connector protocol: how one chunk of text from the
 * device is cut into lines, how each line is classified by its prefix, and
 * which observations (UI echo, NFC callback, dispatched events) it causes.
 *
 * Everything here is the specification that `Connector.Esp32Connector.ProcessIncomingData`
 * is proved against.
 *
 * The per-line callback calls four members the connector class itself never
 * provides: `nfcCallback` (set to null by the constructor), and the methods
 * `handleTicketMessage`, `handleErrorMessage` and `updateUI`. A page may attach
 * them to the instance; `Hooks` records which are present. Calling a missing
 * method throws a TypeError, which leaves the per-line callback and with it
 * the whole `forEach` over the chunk, and ends in the read loop's catch. So a
 * line whose handler is missing, or any non-blank line when `updateUI` is
 * missing, ABORTS the chunk: what its handler did before the throw stays
 * done, it is not echoed, and no later line of the chunk is looked at.
 * A member that is present is taken to return normally: one that threw would
 * abandon the chunk in the same way, and that is not modelled.
 */
module Inbound {
  import opened Wrappers
  import opened Text

  /** The observations one chunk can cause, in the order they happen. */
  datatype Event =
    | RawLine(line: string)          // `updateUI(line)`, the UI echo of a non-blank line
    | NfcCallback(body: string)      // the registered NFC callback invoked with a body
    | NfcDetected(uid: string)       // the `nfcDetected` event (its timestamp is not modelled)
    | StatusUpdate(status: string)   // the `statusUpdate` event
    | TicketMessage(line: string)    // `handleTicketMessage(line)`, when the page supplies it
    | ErrorMessage(line: string)     // `handleErrorMessage(line)`, when the page supplies it

  /** Which of the members called for each line are present on the connector instance. */
  datatype Hooks = Hooks(nfcCallback: bool, updateUI: bool, ticketHandler: bool, errorHandler: bool)

  /** The class on its own: no NFC callback, and none of the three methods. */
  const AsWritten: Hooks := Hooks(false, false, false, false)

  const NfcPrefix: string := "NFC:"
  const StatusPrefix: string := "STATUS:"
  const TicketPrefix: string := "TICKET:"
  const ErrorPrefix: string := "ERROR:"
  const UidMarker: string := "UID:"

  datatype Kind = Blank | Nfc | Status | Ticket | Error | Unclassified

  /**
   * Classification by the first matching prefix in the order NFC, STATUS,
   * TICKET, ERROR. A line that `line.trim()` empties is blank; by
   * `Text.TrimEmptyIff` that is a line made only of whitespace. The four prefixes exclude one another and no blank line
   * carries one, so each kind holds exactly when its own prefix is present.
   */
  function Classify(line: string): Kind {
    if AllWhitespace(line) then Blank
    else if StartsWith(line, NfcPrefix) then Nfc
    else if StartsWith(line, StatusPrefix) then Status
    else if StartsWith(line, TicketPrefix) then Ticket
    else if StartsWith(line, ErrorPrefix) then Error
    else Unclassified
  }

  /** Each kind holds exactly when its own test holds: the order of the tests decides nothing. */
  lemma ClassifyIff(line: string)
    ensures var k := Classify(line);
      && (k == Blank <==> AllWhitespace(line))
      && (k == Nfc <==> StartsWith(line, NfcPrefix))
      && (k == Status <==> StartsWith(line, StatusPrefix))
      && (k == Ticket <==> StartsWith(line, TicketPrefix))
      && (k == Error <==> StartsWith(line, ErrorPrefix))
  {
    PrefixesExclusive(line);
  }

  /** A line that starts with a prefix starts with that prefix's first character. */
  lemma PrefixFirstChar(line: string, prefix: string)
    ensures |prefix| > 0 && StartsWith(line, prefix) ==> |line| > 0 && line[0] == prefix[0]
  {
    if |prefix| > 0 && StartsWith(line, prefix) {
      assert line[0] == line[..|prefix|][0];
    }
  }

  /** No line carries two of the four prefixes, and no blank line carries any, so their order does not matter. */
  lemma PrefixesExclusive(line: string)
    ensures AllWhitespace(line) ==> !StartsWith(line, NfcPrefix) && !StartsWith(line, StatusPrefix)
                                    && !StartsWith(line, TicketPrefix) && !StartsWith(line, ErrorPrefix)
    ensures StartsWith(line, NfcPrefix) ==> !StartsWith(line, StatusPrefix) && !StartsWith(line, TicketPrefix) && !StartsWith(line, ErrorPrefix)
    ensures StartsWith(line, StatusPrefix) ==> !StartsWith(line, TicketPrefix) && !StartsWith(line, ErrorPrefix)
    ensures StartsWith(line, TicketPrefix) ==> !StartsWith(line, ErrorPrefix)
  {
    PrefixFirstChar(line, NfcPrefix);
    PrefixFirstChar(line, StatusPrefix);
    PrefixFirstChar(line, TicketPrefix);
    PrefixFirstChar(line, ErrorPrefix);
  }

  /** The card UID an NFC body carries, when it starts with the UID marker. */
  function NfcUid(body: string): (r: Option<string>)
    ensures r.Some? <==> StartsWith(body, UidMarker)
    ensures r.Some? ==> body == UidMarker + r.value
  {
    if StartsWith(body, UidMarker) then
      PrefixThenRest(body, UidMarker);
      Some(Substring(body, 4))
    else None
  }

  /** What handling an NFC body causes: the callback if one is registered, then `nfcDetected` if it names a UID. */
  function NfcEvents(body: string, hasCallback: bool): seq<Event> {
    (if hasCallback then [NfcCallback(body)] else [])
    + (match NfcUid(body) case Some(uid) => [NfcDetected(uid)] case None => [])
  }

  /** The outcome of handling one line: what it caused, and whether it threw. */
  datatype LineOutcome = LineOutcome(events: seq<Event>, threw: bool)

  /**
   * The `updateUI(line)` call after the line's handler has caused `caused`:
   * the line is echoed, or the call throws when the method is missing.
   */
  function ThenEcho(line: string, h: Hooks, caused: seq<Event>): LineOutcome {
    if h.updateUI then LineOutcome(caused + [RawLine(line)], false) else LineOutcome(caused, true)
  }

  /** Handling one line of a chunk, as `processIncomingData`'s per-line callback does. */
  function HandleLine(line: string, h: Hooks): LineOutcome {
    match Classify(line)
    case Blank => LineOutcome([], false)
    case Nfc => ThenEcho(line, h, NfcEvents(Substring(line, 4), h.nfcCallback))
    case Status => ThenEcho(line, h, [StatusUpdate(Substring(line, 7))])
    case Ticket => if h.ticketHandler then ThenEcho(line, h, [TicketMessage(line)]) else LineOutcome([], true)
    case Error => if h.errorHandler then ThenEcho(line, h, [ErrorMessage(line)]) else LineOutcome([], true)
    case Unclassified => ThenEcho(line, h, [])
  }

  /**
   * The lines that throw, read off the text: a non-blank line throws when
   * `updateUI` is missing, or when it is a TICKET or ERROR line whose handler
   * is missing.
   */
  predicate Throws(line: string, h: Hooks) {
    !AllWhitespace(line)
    && (|| !h.updateUI
        || (StartsWith(line, TicketPrefix) && !h.ticketHandler)
        || (StartsWith(line, ErrorPrefix) && !h.errorHandler))
  }

  /** A line throws exactly as `Throws` says, and a blank line causes nothing. */
  lemma HandleLineThrows(line: string, h: Hooks)
    ensures HandleLine(line, h).threw <==> Throws(line, h)
    ensures AllWhitespace(line) ==> HandleLine(line, h) == LineOutcome([], false)
  {
    ClassifyIff(line);
  }

  /** The UI echoes in a list of observations, in order. */
  function Echoes(events: seq<Event>): seq<string>
    decreases |events|
  {
    if events == [] then []
    else
      var last := events[|events| - 1];
      Echoes(events[..|events| - 1]) + (if last.RawLine? then [last.line] else [])
  }

  lemma {:induction false} EchoesAppend(a: seq<Event>, b: seq<Event>)
    ensures Echoes(a + b) == Echoes(a) + Echoes(b)
    decreases |b|
  {
    if b == [] {
      assert a + b == a;
    } else {
      var b' := b[..|b| - 1];
      assert (a + b)[..|a + b| - 1] == a + b';
      EchoesAppend(a, b');
    }
  }

  lemma {:induction false} EchoesOfNoEcho(events: seq<Event>)
    requires forall i :: 0 <= i < |events| ==> !events[i].RawLine?
    ensures Echoes(events) == []
    decreases |events|
  {
    if events != [] {
      EchoesOfNoEcho(events[..|events| - 1]);
    }
  }

  /** The echo call after observations that hold no echo adds at most the one echo, as the last observation. */
  lemma EchoesOfThenEcho(line: string, h: Hooks, caused: seq<Event>)
    requires forall i :: 0 <= i < |caused| ==> !caused[i].RawLine?
    ensures var o := ThenEcho(line, h, caused);
      && Echoes(o.events) == (if h.updateUI then [line] else [])
      && o.threw == !h.updateUI
      && (h.updateUI ==> |o.events| > 0 && o.events[|o.events| - 1] == RawLine(line))
  {
    EchoesOfNoEcho(caused);
    if h.updateUI {
      EchoesAppend(caused, [RawLine(line)]);
      assert [RawLine(line)][..0] == [];
    }
  }

  /**
   * A line is echoed exactly when it is non-blank and does not throw, and then
   * exactly once, as the last thing it causes; otherwise it is not echoed.
   */
  lemma LineEchoes(line: string, h: Hooks)
    ensures var o := HandleLine(line, h);
      Echoes(o.events) == if AllWhitespace(line) || o.threw then [] else [line]
    ensures var o := HandleLine(line, h);
      !AllWhitespace(line) && !o.threw ==> |o.events| > 0 && o.events[|o.events| - 1] == RawLine(line)
  {
    ClassifyIff(line);
    match Classify(line)
    case Blank =>
    case Nfc =>
      var body := Substring(line, 4);
      var caused := NfcEvents(body, h.nfcCallback);
      assert forall i :: 0 <= i < |caused| ==> !caused[i].RawLine?;
      EchoesOfThenEcho(line, h, caused);
    case Status =>
      EchoesOfThenEcho(line, h, [StatusUpdate(Substring(line, 7))]);
    case Ticket =>
      if h.ticketHandler {
        EchoesOfThenEcho(line, h, [TicketMessage(line)]);
      }
    case Error =>
      if h.errorHandler {
        EchoesOfThenEcho(line, h, [ErrorMessage(line)]);
      }
    case Unclassified =>
      EchoesOfThenEcho(line, h, []);
  }

  /** The last-seen card UID after handling `line`. */
  function UidAfter(line: string, uid: Option<string>): Option<string> {
    if Classify(line) == Nfc && NfcUid(Substring(line, 4)).Some? then NfcUid(Substring(line, 4)) else uid
  }

  /**
   * Appending to a log in two steps is appending once. Dafny knows this, but
   * asserting it inside a loop body costs far more than calling this lemma.
   */
  lemma Regroup(a: seq<Event>, b: seq<Event>, c: seq<Event>)
    ensures a + b + c == a + (b + c)
  {
  }

  /** The result of handling a whole chunk: what it caused, the last-seen UID, and whether it was abandoned. */
  datatype ChunkResult = ChunkResult(events: seq<Event>, lastUid: Option<string>, aborted: bool)

  /** Handling one more line after `prev`: nothing happens once the chunk has been abandoned. */
  function Step(prev: ChunkResult, line: string, h: Hooks): ChunkResult {
    if prev.aborted then prev
    else
      var o := HandleLine(line, h);
      ChunkResult(prev.events + o.events, UidAfter(line, prev.lastUid), o.threw)
  }

  /**
   * Handling the lines of a chunk in order, starting from the last-seen UID
   * `uid`. Once a line throws, nothing later is handled.
   */
  function RunLines(lines: seq<string>, h: Hooks, uid: Option<string>): ChunkResult
    decreases |lines|
  {
    if lines == [] then ChunkResult([], uid, false)
    else Step(RunLines(lines[..|lines| - 1], h, uid), lines[|lines| - 1], h)
  }

  lemma RunLinesSnoc(lines: seq<string>, line: string, h: Hooks, uid: Option<string>)
    ensures RunLines(lines + [line], h, uid) == Step(RunLines(lines, h, uid), line, h)
  {
    assert (lines + [line])[..|lines|] == lines;
  }

  /** The lines up to and including index `i` are handled by one more step after those before it. */
  lemma RunLinesNext(lines: seq<string>, i: nat, h: Hooks, uid: Option<string>)
    requires i < |lines|
    ensures RunLines(lines[..i + 1], h, uid) == Step(RunLines(lines[..i], h, uid), lines[i], h)
  {
    assert lines[..i + 1] == lines[..i] + [lines[i]];
    RunLinesSnoc(lines[..i], lines[i], h, uid);
  }

  /** Handling one chunk of text: `data.split('\n')`, line by line. */
  function ProcessChunk(data: string, h: Hooks, uid: Option<string>): ChunkResult {
    RunLines(SplitLines(data), h, uid)
  }

  /** An empty chunk is one empty line, which changes nothing. */
  lemma ProcessChunkEmpty(h: Hooks, uid: Option<string>)
    ensures ProcessChunk("", h, uid) == ChunkResult([], uid, false)
  {
    assert SplitLines("") == [""];
    assert [""][..0] == [];
    assert AllWhitespace("");
    LineBlank("", h, uid);
  }

  /** Index of the first line that throws, or `|lines|` when none does. */
  function FirstAbort(lines: seq<string>, h: Hooks): (k: nat)
    ensures k <= |lines|
    ensures k < |lines| ==> Throws(lines[k], h)
    ensures forall j :: 0 <= j < k ==> !Throws(lines[j], h)
    decreases |lines|
  {
    if lines == [] then 0
    else if Throws(lines[0], h) then 0
    else 1 + FirstAbort(lines[1..], h)
  }

  /** Once a prefix of the lines has thrown, the later lines change nothing. */
  lemma {:induction false} AbortIsFinal(lines: seq<string>, k: nat, h: Hooks, uid: Option<string>)
    requires k <= |lines|
    requires RunLines(lines[..k], h, uid).aborted
    ensures RunLines(lines, h, uid) == RunLines(lines[..k], h, uid)
    decreases |lines| - k
  {
    if k < |lines| {
      var init := lines[..|lines| - 1];
      assert init[..k] == lines[..k];
      AbortIsFinal(init, k, h, uid);
    } else {
      assert lines[..k] == lines;
    }
  }

  /** Lines none of which throws are handled to the end without abandoning. */
  lemma {:induction false} NoAbortBefore(lines: seq<string>, k: nat, h: Hooks, uid: Option<string>)
    requires k <= |lines|
    requires forall j :: 0 <= j < k ==> !Throws(lines[j], h)
    ensures !RunLines(lines[..k], h, uid).aborted
    decreases k
  {
    if k > 0 {
      var pre := lines[..k];
      assert pre[..k - 1] == lines[..k - 1];
      HandleLineThrows(lines[k - 1], h);
      NoAbortBefore(lines, k - 1, h, uid);
    }
  }

  /**
   * A chunk is abandoned exactly when one of its lines throws. The lines
   * before the first such line are handled in full, that line is handled up to
   * its throw, and nothing after it is handled.
   */
  lemma {:induction false} RunLinesStopsAtFirstAbort(lines: seq<string>, h: Hooks, uid: Option<string>)
    ensures var r := RunLines(lines, h, uid);
      var k := FirstAbort(lines, h);
      var before := RunLines(lines[..k], h, uid);
      && !before.aborted
      && (r.aborted <==> k < |lines|)
      && (k == |lines| ==> r == before)
      && (k < |lines| ==> r == Step(before, lines[k], h))
  {
    var k := FirstAbort(lines, h);
    NoAbortBefore(lines, k, h, uid);
    if k < |lines| {
      RunLinesNext(lines, k, h, uid);
      HandleLineThrows(lines[k], h);
      AbortIsFinal(lines, k + 1, h, uid);
    } else {
      assert lines[..k] == lines;
    }
  }

  /** The non-blank lines, in order. */
  function NonBlank(lines: seq<string>): seq<string>
    decreases |lines|
  {
    if lines == [] then []
    else
      var last := lines[|lines| - 1];
      NonBlank(lines[..|lines| - 1]) + (if AllWhitespace(last) then [] else [last])
  }

  /** There are no non-blank lines exactly when every line is blank. */
  lemma {:induction false} NonBlankEmpty(lines: seq<string>)
    ensures NonBlank(lines) == [] <==> forall j :: 0 <= j < |lines| ==> AllWhitespace(lines[j])
    decreases |lines|
  {
    if lines != [] {
      var init := lines[..|lines| - 1];
      NonBlankEmpty(init);
      assert forall j :: 0 <= j < |init| ==> init[j] == lines[j];
    }
  }

  lemma {:induction false} EchoesWithoutAbort(lines: seq<string>, h: Hooks, uid: Option<string>)
    requires forall j :: 0 <= j < |lines| ==> !Throws(lines[j], h)
    ensures !RunLines(lines, h, uid).aborted
    ensures Echoes(RunLines(lines, h, uid).events) == NonBlank(lines)
    decreases |lines|
  {
    if lines != [] {
      var init := lines[..|lines| - 1];
      var line := lines[|lines| - 1];
      EchoesWithoutAbort(init, h, uid);
      var prev := RunLines(init, h, uid);
      var evs := HandleLine(line, h).events;
      HandleLineThrows(line, h);
      EchoesAppend(prev.events, evs);
      LineEchoes(line, h);
    }
  }

  /**
   * Every non-blank line handled to the end is echoed exactly once, in input
   * order, and nothing else is echoed: the echoes are the non-blank lines
   * before the first line that throws.
   */
  lemma EchoesAreNonBlankLines(lines: seq<string>, h: Hooks, uid: Option<string>)
    ensures Echoes(RunLines(lines, h, uid).events) == NonBlank(lines[..FirstAbort(lines, h)])
  {
    var k := FirstAbort(lines, h);
    RunLinesStopsAtFirstAbort(lines, h, uid);
    EchoesWithoutAbort(lines[..k], h, uid);
    if k < |lines| {
      var before := RunLines(lines[..k], h, uid);
      var o := HandleLine(lines[k], h);
      HandleLineThrows(lines[k], h);
      LineEchoes(lines[k], h);
      EchoesAppend(before.events, o.events);
      assert Echoes(before.events) + [] == Echoes(before.events);
    }
  }

  /**
   * Without `updateUI`, as the class is written, nothing is ever echoed, and a
   * chunk is abandoned at its first non-blank line whenever it has one.
   */
  lemma WithoutUpdateUI(lines: seq<string>, h: Hooks, uid: Option<string>)
    requires !h.updateUI
    ensures var r := RunLines(lines, h, uid);
      && Echoes(r.events) == []
      && (r.aborted <==> NonBlank(lines) != [])
  {
    var k := FirstAbort(lines, h);
    EchoesAreNonBlankLines(lines, h, uid);
    RunLinesStopsAtFirstAbort(lines, h, uid);
    NonBlankEmpty(lines[..k]);
    NonBlankEmpty(lines);
  }

  /** The lines of a chunk when the class is used as written. */
  lemma AsWrittenChunk(data: string, uid: Option<string>)
    ensures var r := ProcessChunk(data, AsWritten, uid);
      && Echoes(r.events) == []
      && (r.aborted <==> NonBlank(SplitLines(data)) != [])
  {
    WithoutUpdateUI(SplitLines(data), AsWritten, uid);
  }

  /**
   * With every member present, nothing throws: each non-blank line of a
   * chunk is echoed exactly once, in order, and the chunk is never abandoned.
   */
  lemma FullHooksEchoEveryLine(lines: seq<string>, hasCallback: bool, uid: Option<string>)
    ensures var r := RunLines(lines, Hooks(hasCallback, true, true, true), uid);
      && !r.aborted
      && Echoes(r.events) == NonBlank(lines)
  {
    EchoesWithoutAbort(lines, Hooks(hasCallback, true, true, true), uid);
  }

  /** A chunk of two lines. */
  lemma SplitPair(a: string, b: string)
    requires '\n' !in a && '\n' !in b
    ensures SplitLines(a + "\n" + b) == [a, b]
  {
    assert JoinLines([a, b]) == a + "\n" + b by {
      assert [a, b][1..] == [b];
    }
    SplitJoin([a, b]);
  }

  /** Handling two lines is two steps. */
  lemma RunPair(a: string, b: string, h: Hooks, uid: Option<string>)
    ensures RunLines([a, b], h, uid) == Step(Step(ChunkResult([], uid, false), a, h), b, h)
  {
    RunLinesSnoc([], a, h, uid);
    RunLinesSnoc([a], b, h, uid);
    assert [] + [a] == [a];
    assert [a] + [b] == [a, b];
  }

  /**
   * Without the echo call, a chunk holding one status line raises the status
   * and is then abandoned, whatever the status.
   */
  lemma StatusChunkWithoutUpdateUI(status: string, h: Hooks, uid: Option<string>)
    requires !h.updateUI && '\n' !in status
    ensures ProcessChunk(StatusPrefix + status + "\n", h, uid) == ChunkResult([StatusUpdate(status)], uid, true)
  {
    var line := StatusPrefix + status;
    assert '\n' !in line by {
      assert forall j :: 7 <= j < |line| ==> line[j] == status[j - 7];
    }
    SplitPair(line, "");
    assert line + "\n" + "" == StatusPrefix + status + "\n";
    RunPair(line, "", h, uid);
    StatusLine(status, h, uid);
  }

  /**
   * Without a ticket handler, a chunk that opens with a ticket line is
   * abandoned on it: nothing is raised and none of the lines after it is
   * handled, however many there are.
   */
  lemma TicketChunkWithoutHandler(ticket: string, rest: string, h: Hooks, uid: Option<string>)
    requires !h.ticketHandler && '\n' !in ticket
    ensures ProcessChunk(TicketPrefix + ticket + "\n" + rest, h, uid) == ChunkResult([], uid, true)
  {
    var line := TicketPrefix + ticket;
    assert '\n' !in line by {
      assert forall j :: 7 <= j < |line| ==> line[j] == ticket[j - 7];
    }
    SplitFirstLine(line, rest);
    var lines := [line] + SplitLines(rest);
    assert lines[..0] == [] && lines[0] == line;
    RunLinesNext(lines, 0, h, uid);
    TicketLine(ticket, h, uid);
    assert RunLines(lines[..1], h, uid) == ChunkResult([], uid, true);
    AbortIsFinal(lines, 1, h, uid);
  }

  /** The connector as written, sent one status line: the status is raised, the echo call throws, and the chunk is abandoned. */
  lemma AsWrittenStatusChunk(uid: Option<string>)
    ensures ProcessChunk("STATUS:READY\n", AsWritten, uid) == ChunkResult([StatusUpdate("READY")], uid, true)
  {
    assert StatusPrefix + "READY" + "\n" == "STATUS:READY\n";
    StatusChunkWithoutUpdateUI("READY", AsWritten, uid);
  }

  /**
   * With the echo supplied but no ticket handler, a ticket line throws before
   * anything happens, and the status line after it is never handled.
   */
  lemma MissingTicketHandlerChunk(uid: Option<string>)
    ensures ProcessChunk("TICKET:T1\nSTATUS:OK", Hooks(false, true, false, false), uid) == ChunkResult([], uid, true)
  {
    assert TicketPrefix + "T1" + "\n" + "STATUS:OK" == "TICKET:T1\nSTATUS:OK";
    TicketChunkWithoutHandler("T1", "STATUS:OK", Hooks(false, true, false, false), uid);
  }

  /** An NFC line causes its NFC events and then the echo call, and moves the UID to the one its body names. */
  lemma LineNfc(line: string, h: Hooks, uid: Option<string>)
    requires Classify(line) == Nfc
    ensures var body := Substring(line, 4);
      && HandleLine(line, h) == ThenEcho(line, h, NfcEvents(body, h.nfcCallback))
      && UidAfter(line, uid) == if NfcUid(body).Some? then NfcUid(body) else uid
  {
  }

  /** A STATUS line causes its `statusUpdate` and then the echo call, and leaves the UID alone. */
  lemma LineStatus(line: string, h: Hooks, uid: Option<string>)
    requires Classify(line) == Status
    ensures HandleLine(line, h) == ThenEcho(line, h, [StatusUpdate(Substring(line, 7))])
    ensures UidAfter(line, uid) == uid
  {
  }

  /** A TICKET line throws without its handler; with it, the handler runs and then the echo call. */
  lemma LineTicket(line: string, h: Hooks, uid: Option<string>)
    requires Classify(line) == Ticket
    ensures HandleLine(line, h) == if h.ticketHandler then ThenEcho(line, h, [TicketMessage(line)]) else LineOutcome([], true)
    ensures UidAfter(line, uid) == uid
  {
  }

  /** An ERROR line throws without its handler; with it, the handler runs and then the echo call. */
  lemma LineError(line: string, h: Hooks, uid: Option<string>)
    requires Classify(line) == Error
    ensures HandleLine(line, h) == if h.errorHandler then ThenEcho(line, h, [ErrorMessage(line)]) else LineOutcome([], true)
    ensures UidAfter(line, uid) == uid
  {
  }

  /** A blank line causes nothing and leaves the UID alone. */
  lemma LineBlank(line: string, h: Hooks, uid: Option<string>)
    requires Classify(line) == Blank
    ensures HandleLine(line, h) == LineOutcome([], false)
    ensures UidAfter(line, uid) == uid
  {
  }

  /** A line with none of the four prefixes that is not blank only reaches the echo call, and leaves the UID alone. */
  lemma LineOther(line: string, h: Hooks, uid: Option<string>)
    requires Classify(line) == Unclassified
    ensures HandleLine(line, h) == ThenEcho(line, h, [])
    ensures UidAfter(line, uid) == uid
  {
  }

  /** A blank line is a step that changes nothing. */
  lemma StepBlank(prev: ChunkResult, line: string, h: Hooks)
    requires AllWhitespace(line)
    ensures Step(prev, line, h) == prev
  {
    HandleLineThrows(line, h);
    assert prev.events + [] == prev.events;
  }

  /** Blank lines have no effect at all: handling the chunk without them gives the same result. */
  lemma {:induction false} BlankLinesHaveNoEffect(lines: seq<string>, h: Hooks, uid: Option<string>)
    ensures RunLines(lines, h, uid) == RunLines(NonBlank(lines), h, uid)
    decreases |lines|
  {
    if lines != [] {
      var init := lines[..|lines| - 1];
      var line := lines[|lines| - 1];
      BlankLinesHaveNoEffect(init, h, uid);
      var prev := RunLines(init, h, uid);
      assert RunLines(lines, h, uid) == Step(prev, line, h);
      if AllWhitespace(line) {
        assert NonBlank(lines) == NonBlank(init) + [];
        assert NonBlank(init) + [] == NonBlank(init);
        StepBlank(prev, line, h);
      } else {
        assert NonBlank(lines) == NonBlank(init) + [line];
        RunLinesSnoc(NonBlank(init), line, h, uid);
      }
    }
  }

  /** The UID of the last `nfcDetected` event among `events`, or `uid` when there is none. */
  function LastDetected(events: seq<Event>, uid: Option<string>): Option<string>
    decreases |events|
  {
    if events == [] then uid
    else
      var last := events[|events| - 1];
      if last.NfcDetected? then Some(last.uid) else LastDetected(events[..|events| - 1], uid)
  }

  lemma {:induction false} LastDetectedAppend(a: seq<Event>, b: seq<Event>, uid: Option<string>)
    ensures LastDetected(a + b, uid) == LastDetected(b, LastDetected(a, uid))
    decreases |b|
  {
    if b == [] {
      assert a + b == a;
    } else {
      var b' := b[..|b| - 1];
      assert (a + b)[..|a + b| - 1] == a + b';
      LastDetectedAppend(a, b', uid);
    }
  }

  lemma {:induction false} LastDetectedOfNone(events: seq<Event>, uid: Option<string>)
    requires forall i :: 0 <= i < |events| ==> !events[i].NfcDetected?
    ensures LastDetected(events, uid) == uid
    decreases |events|
  {
    if events != [] {
      LastDetectedOfNone(events[..|events| - 1], uid);
    }
  }

  lemma LastDetectedSnocOther(events: seq<Event>, e: Event, uid: Option<string>)
    requires !e.NfcDetected?
    ensures LastDetected(events + [e], uid) == LastDetected(events, uid)
  {
    assert (events + [e])[..|events|] == events;
  }

  /** The events of an NFC body move the last-seen UID exactly to the UID the body names, if any. */
  lemma LastDetectedOfNfcEvents(body: string, hasCallback: bool, uid: Option<string>)
    ensures LastDetected(NfcEvents(body, hasCallback), uid)
            == if NfcUid(body).Some? then NfcUid(body) else uid
  {
    var pre: seq<Event> := if hasCallback then [NfcCallback(body)] else [];
    var det: seq<Event> := match NfcUid(body) case Some(u) => [NfcDetected(u)] case None => [];
    assert LastDetected(pre, uid) == uid by {
      if hasCallback {
        LastDetectedSnocOther([], NfcCallback(body), uid);
        assert [] + [NfcCallback(body)] == pre;
      }
    }
    LastDetectedAppend(pre, det, uid);
    if NfcUid(body).Some? {
      assert det == [NfcDetected(NfcUid(body).value)];
    } else {
      assert det == [];
    }
  }

  /** One line moves the last-seen UID exactly as far as its own `nfcDetected` event says, whether or not it throws. */
  lemma LastDetectedOfLine(line: string, h: Hooks, uid: Option<string>)
    ensures LastDetected(HandleLine(line, h).events, uid) == UidAfter(line, uid)
  {
    var o := HandleLine(line, h);
    if Classify(line) == Nfc {
      var evs := NfcEvents(Substring(line, 4), h.nfcCallback);
      LastDetectedOfNfcEvents(Substring(line, 4), h.nfcCallback, uid);
      if h.updateUI {
        LastDetectedSnocOther(evs, RawLine(line), uid);
      }
    } else {
      assert forall i :: 0 <= i < |o.events| ==> !o.events[i].NfcDetected?;
      LastDetectedOfNone(o.events, uid);
    }
  }

  /**
   * The last-seen UID after a chunk is the UID of the chunk's last
   * `nfcDetected` event, or the UID from before when the chunk detected none.
   */
  lemma {:induction false} UidIsLastDetected(lines: seq<string>, h: Hooks, uid: Option<string>)
    ensures var r := RunLines(lines, h, uid);
      r.lastUid == LastDetected(r.events, uid)
    decreases |lines|
  {
    if lines != [] {
      var init := lines[..|lines| - 1];
      var line := lines[|lines| - 1];
      UidIsLastDetected(init, h, uid);
      var prev := RunLines(init, h, uid);
      if !prev.aborted {
        LastDetectedAppend(prev.events, HandleLine(line, h).events, uid);
        LastDetectedOfLine(line, h, prev.lastUid);
      }
    }
  }

  /**
   * An `NFC:` line: the callback, if registered, receives the body; a body
   * `UID:<uid>` sets the last-seen UID and raises one `nfcDetected(uid)`; any
   * other body leaves the UID alone and raises none; then the line is echoed,
   * or, without `updateUI`, the line throws after all of that.
   */
  lemma NfcLine(body: string, h: Hooks, uid: Option<string>)
    ensures var line := NfcPrefix + body;
      var caused := (if h.nfcCallback then [NfcCallback(body)] else [])
                    + (if StartsWith(body, UidMarker) then [NfcDetected(body[4..])] else []);
      && HandleLine(line, h)
         == (if h.updateUI then LineOutcome(caused + [RawLine(line)], false) else LineOutcome(caused, true))
      && UidAfter(line, uid) == (if StartsWith(body, UidMarker) then Some(body[4..]) else uid)
  {
    StartsWithAppend(NfcPrefix, body);
    ClassifyIff(NfcPrefix + body);
    LineNfc(NfcPrefix + body, h, uid);
  }

  /** A `STATUS:` line raises exactly one `statusUpdate` with the text after the prefix, then the echo call; the UID is untouched. */
  lemma StatusLine(status: string, h: Hooks, uid: Option<string>)
    ensures var line := StatusPrefix + status;
      && HandleLine(line, h)
         == (if h.updateUI then LineOutcome([StatusUpdate(status), RawLine(line)], false)
             else LineOutcome([StatusUpdate(status)], true))
      && UidAfter(line, uid) == uid
  {
    StartsWithAppend(StatusPrefix, status);
    ClassifyIff(StatusPrefix + status);
    LineStatus(StatusPrefix + status, h, uid);
  }

  /** A `TICKET:` line throws at once without `handleTicketMessage`, causing nothing; the UID is untouched. */
  lemma TicketLine(rest: string, h: Hooks, uid: Option<string>)
    ensures var line := TicketPrefix + rest;
      && HandleLine(line, h)
         == (if !h.ticketHandler then LineOutcome([], true)
             else if h.updateUI then LineOutcome([TicketMessage(line), RawLine(line)], false)
             else LineOutcome([TicketMessage(line)], true))
      && UidAfter(line, uid) == uid
  {
    StartsWithAppend(TicketPrefix, rest);
    ClassifyIff(TicketPrefix + rest);
    LineTicket(TicketPrefix + rest, h, uid);
  }

  /** An `ERROR:` line throws at once without `handleErrorMessage`, causing nothing; the UID is untouched. */
  lemma ErrorLine(rest: string, h: Hooks, uid: Option<string>)
    ensures var line := ErrorPrefix + rest;
      && HandleLine(line, h)
         == (if !h.errorHandler then LineOutcome([], true)
             else if h.updateUI then LineOutcome([ErrorMessage(line), RawLine(line)], false)
             else LineOutcome([ErrorMessage(line)], true))
      && UidAfter(line, uid) == uid
  {
    StartsWithAppend(ErrorPrefix, rest);
    ClassifyIff(ErrorPrefix + rest);
    LineError(ErrorPrefix + rest, h, uid);
  }
}
