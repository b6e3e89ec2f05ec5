/** The execution log of a match: one line per event, one block per agent's error output, cut at a byte limit. */
module ExecutionLog {
  import opened Text

  datatype LogEvent = LogEvent(seqNo: int, typ: string, payload: string)

  datatype AgentLog = AgentLog(agentID: int, content: string)

  /** The %03d verb. */
  function Pad3(n: int): string {
    var sign, digits := if n < 0 then "-" else "", FormatInt(if n < 0 then -n else n);
    var missing := 3 - |sign| - |digits|;
    sign + seq(if missing > 0 then missing else 0, _ => '0') + digits
  }

  function LineOf(e: LogEvent): string {
    "[" + Pad3(e.seqNo) + "] " + e.typ + " " + e.payload + "\n"
  }

  /** An agent without output has no block. */
  function BlockOf(log: AgentLog): string {
    if log.content == "" then "" else "\n--- agent:" + FormatInt(log.agentID) + " stderr ---\n" + log.content + "\n"
  }

  function Marker(omitted: int): string {
    "\n--- log truncated (" + FormatInt(omitted) + " bytes omitted) ---"
  }

  /** A line opens with its number in three digits or more. */
  lemma LineMeaning(e: LogEvent)
    requires e.seqNo >= 0
    ensures var number := Pad3(e.seqNo);
            && LineOf(e) == "[" + number + "] " + e.typ + " " + e.payload + "\n"
            && IsNumeral(number) && NumeralValue(number) == e.seqNo && AllDigits(number)
            && (if e.seqNo < 1000 then |number| == 3 else number == FormatInt(e.seqNo))
  {
    hide FormatNat;
    var n := e.seqNo;
    var digits := FormatInt(n);
    var zeros := if 3 - |digits| > 0 then 3 - |digits| else 0;
    FormatNatIsNumeral(n);
    DigitCount(n);
    assert Pad3(n) == seq(zeros, _ => '0') + digits;
    ZerosKeepValue(zeros, digits);
    PlainNumeral(Pad3(n));
  }

  /** Digits without a sign are a numeral. */
  lemma PlainNumeral(s: string)
    requires AllDigits(s) && s != ""
    ensures IsNumeral(s) && NumeralValue(s) == NatValue(s)
  {
    assert IsDigit(s[0]);
  }

  lemma DigitCount(n: nat)
    ensures n < 1000 ==> |FormatNat(n)| <= 3
    ensures n >= 1000 ==> |FormatNat(n)| >= 4
  {
    if n >= 1000 {
      assert |FormatNat(n / 10 / 10)| >= 2;
      assert |FormatNat(n / 10)| >= 3;
    } else if n >= 10 {
      assert |FormatNat(n / 10 / 10)| == 1;
    }
  }

  lemma {:induction false} ZerosKeepValue(zeros: nat, digits: string)
    requires AllDigits(digits) && digits != ""
    ensures AllDigits(seq(zeros, _ => '0') + digits)
    ensures NatValue(seq(zeros, _ => '0') + digits) == NatValue(digits)
    decreases |digits|
  {
    var padded := seq(zeros, _ => '0') + digits;
    var init := digits[..|digits| - 1];
    assert padded[..|padded| - 1] == seq(zeros, _ => '0') + init;
    if init == "" {
      OnlyZeros(zeros);
      assert seq(zeros, _ => '0') + init == seq(zeros, _ => '0');
    } else {
      ZerosKeepValue(zeros, init);
    }
  }

  lemma {:induction false} OnlyZeros(zeros: nat)
    ensures AllDigits(seq(zeros, _ => '0')) && NatValue(seq(zeros, _ => '0')) == 0
  {
    if zeros > 0 {
      assert seq(zeros, _ => '0')[..zeros - 1] == seq(zeros - 1, _ => '0');
      OnlyZeros(zeros - 1);
    }
  }

  lemma LineExample()
    ensures LineOf(LogEvent(7, "game.ended", "{}")) == "[007] game.ended {}\n"
  {
    var seven: int := 7;
    assert FormatInt(seven) == [Digit(7)] == "7";
    assert Pad3(seven) == "007";
  }

  lemma BlockExample()
    ensures BlockOf(AgentLog(7, "panic")) == "\n--- agent:7 stderr ---\npanic\n"
  {
    var seven: int := 7;
    assert FormatInt(seven) == [Digit(7)] == "7";
  }

  lemma MarkerExample()
    ensures Marker(7) == "\n--- log truncated (7 bytes omitted) ---"
  {
    var seven: int := 7;
    assert FormatInt(seven) == [Digit(7)] == "7";
  }

  function Lines(events: seq<LogEvent>): string {
    if events == [] then "" else Lines(events[..|events| - 1]) + LineOf(events[|events| - 1])
  }

  function Blocks(logs: seq<AgentLog>): string {
    if logs == [] then "" else Blocks(logs[..|logs| - 1]) + BlockOf(logs[|logs| - 1])
  }

  /** The whole log, without any limit. */
  function Full(events: seq<LogEvent>, logs: seq<AgentLog>): string {
    Lines(events) + Blocks(logs)
  }

  lemma LinesSnoc(events: seq<LogEvent>, k: nat)
    requires k < |events|
    ensures Lines(events[..k + 1]) == Lines(events[..k]) + LineOf(events[k])
    ensures ByteLen(Lines(events[..k + 1])) == ByteLen(Lines(events[..k])) + ByteLen(LineOf(events[k]))
  {
    assert events[..k + 1][..k] == events[..k];
    ByteLenConcat(Lines(events[..k]), LineOf(events[k]));
  }

  lemma BlocksSnoc(logs: seq<AgentLog>, k: nat)
    requires k < |logs|
    ensures Blocks(logs[..k + 1]) == Blocks(logs[..k]) + BlockOf(logs[k])
    ensures ByteLen(Blocks(logs[..k + 1])) == ByteLen(Blocks(logs[..k])) + ByteLen(BlockOf(logs[k]))
  {
    assert logs[..k + 1][..k] == logs[..k];
    ByteLenConcat(Blocks(logs[..k]), BlockOf(logs[k]));
  }

  lemma LineHasBytes(e: LogEvent)
    ensures ByteLen(LineOf(e)) > 0
  {
  }

  /** A longer prefix of the events has more bytes, one at least for each further line. */
  lemma {:induction false} LinesGrow(events: seq<LogEvent>, j: nat, k: nat)
    requires j <= k <= |events|
    ensures ByteLen(Lines(events[..j])) + (k - j) <= ByteLen(Lines(events[..k]))
  {
    hide LineOf, ByteLen;
    if j < k {
      LinesGrow(events, j, k - 1);
      LinesSnoc(events, k - 1);
      LineHasBytes(events[k - 1]);
    }
  }

  lemma {:induction false} BlocksGrow(logs: seq<AgentLog>, j: nat, k: nat)
    requires j <= k <= |logs|
    ensures ByteLen(Blocks(logs[..j])) <= ByteLen(Blocks(logs[..k]))
  {
    hide BlockOf, ByteLen;
    if j < k {
      BlocksGrow(logs, j, k - 1);
      BlocksSnoc(logs, k - 1);
    }
  }

  // ----- what is kept -----

  predicate LinesFit(events: seq<LogEvent>, maxBytes: int, k: nat)
    requires k <= |events|
  {
    maxBytes <= 0 || ByteLen(Lines(events[..k])) <= maxBytes
  }

  /** The length of the longest prefix of the events, up to `k`, that fits the limit. */
  function KeptLines(events: seq<LogEvent>, maxBytes: int, k: nat): (kept: nat)
    requires k <= |events|
    ensures kept <= k && LinesFit(events, maxBytes, kept)
    ensures kept < k ==> !LinesFit(events, maxBytes, kept + 1)
  {
    if k == 0 || LinesFit(events, maxBytes, k) then (assert events[..0] == []; k)
    else KeptLines(events, maxBytes, k - 1)
  }

  lemma KeptLinesIs(events: seq<LogEvent>, maxBytes: int, k: nat)
    requires k <= |events| && LinesFit(events, maxBytes, k)
    requires k < |events| ==> !LinesFit(events, maxBytes, k + 1)
    ensures KeptLines(events, maxBytes, |events|) == k
  {
    hide ByteLen, Lines;
    var kept := KeptLines(events, maxBytes, |events|);
    if kept < k {
      LinesGrow(events, kept + 1, k);
    } else if k < kept {
      LinesGrow(events, k + 1, kept);
    }
  }

  /** Blocks fit behind `used` bytes; blocks without a byte always do. */
  predicate BlocksFit(used: nat, logs: seq<AgentLog>, maxBytes: int, k: nat)
    requires k <= |logs|
  {
    maxBytes <= 0 || ByteLen(Blocks(logs[..k])) == 0 || used + ByteLen(Blocks(logs[..k])) <= maxBytes
  }

  function KeptBlocks(used: nat, logs: seq<AgentLog>, maxBytes: int, k: nat): (kept: nat)
    requires k <= |logs|
    ensures kept <= k && BlocksFit(used, logs, maxBytes, kept)
    ensures kept < k ==> !BlocksFit(used, logs, maxBytes, kept + 1)
  {
    if k == 0 || BlocksFit(used, logs, maxBytes, k) then (assert logs[..0] == []; k)
    else KeptBlocks(used, logs, maxBytes, k - 1)
  }

  lemma KeptBlocksIs(used: nat, logs: seq<AgentLog>, maxBytes: int, k: nat)
    requires k <= |logs| && BlocksFit(used, logs, maxBytes, k)
    requires k < |logs| ==> !BlocksFit(used, logs, maxBytes, k + 1)
    ensures KeptBlocks(used, logs, maxBytes, |logs|) == k
  {
    hide ByteLen, Blocks;
    var kept := KeptBlocks(used, logs, maxBytes, |logs|);
    if kept < k {
      BlocksGrow(logs, kept + 1, k);
    } else if k < kept {
      BlocksGrow(logs, k + 1, kept);
    }
  }

  /** The marker behind the kept lines, if a line was dropped. */
  function EventMarker(events: seq<LogEvent>, maxBytes: int, k: nat): string
    requires k <= |events|
  {
    if k < |events| then Marker(ByteLen(Lines(events[..k + 1])) - maxBytes) else ""
  }

  /** The marker behind the kept blocks, if a block was dropped. */
  function BlockMarker(used: nat, logs: seq<AgentLog>, maxBytes: int, k: nat): string
    requires k <= |logs|
  {
    if k < |logs| then Marker(used + ByteLen(Blocks(logs[..k + 1])) - maxBytes) else ""
  }

  /** The lines that fit, and a marker with the overshoot of the first one that does not. */
  function EventPart(events: seq<LogEvent>, maxBytes: int): string {
    var k := KeptLines(events, maxBytes, |events|);
    Lines(events[..k]) + EventMarker(events, maxBytes, k)
  }

  /** The blocks that fit behind `before`, and a marker if one does not. */
  function BlockPart(before: string, logs: seq<AgentLog>, maxBytes: int): string {
    var used := ByteLen(before);
    var k := KeptBlocks(used, logs, maxBytes, |logs|);
    Blocks(logs[..k]) + BlockMarker(used, logs, maxBytes, k)
  }

  // ----- the two loops -----

  method RenderEvents(events: seq<LogEvent>, maxBytes: int) returns (text: string, truncated: bool)
    ensures text == EventPart(events, maxBytes)
    ensures truncated <==> !LinesFit(events, maxBytes, |events|)
  {
    hide LineOf, Marker, Lines, ByteLen;
    text, truncated := "", false;
    NoLines(events);
    for i := 0 to |events|
      invariant text == Lines(events[..i]) && LinesFit(events, maxBytes, i) && !truncated
    {
      var line := LineOf(events[i]);
      LinesSnoc(events, i);
      if maxBytes > 0 && ByteLen(text) + ByteLen(line) > maxBytes {
        KeptLinesIs(events, maxBytes, i);
        LinesGrow(events, i + 1, |events|);
        var omitted := ByteLen(text) + ByteLen(line) - maxBytes;
        return text + Marker(omitted), true;
      }
      text := text + line;
    }
    KeptLinesIs(events, maxBytes, |events|);
    assert text + "" == text;
  }

  lemma NoLines(events: seq<LogEvent>)
    ensures Lines(events[..0]) == "" && ByteLen("") == 0
  {
    assert events[..0] == [];
  }

  method RenderBlocks(before: string, logs: seq<AgentLog>, maxBytes: int) returns (text: string, truncated: bool)
    ensures text == before + BlockPart(before, logs, maxBytes)
    ensures truncated <==> !BlocksFit(ByteLen(before), logs, maxBytes, |logs|)
  {
    hide BlockOf, Blocks, Marker, ByteLen;
    text, truncated := before, false;
    NoBlocks(before, logs);
    for i := 0 to |logs|
      invariant text == before + Blocks(logs[..i]) && !truncated
      invariant ByteLen(text) == ByteLen(before) + ByteLen(Blocks(logs[..i]))
      invariant BlocksFit(ByteLen(before), logs, maxBytes, i)
    {
      var block := BlockOf(logs[i]);
      BlocksSnoc(logs, i);
      EmptyBlock(logs[i]);
      ByteLenConcat(text, block);
      assert text + block == before + (Blocks(logs[..i]) + block);
      if logs[i].content == "" {
        continue;
      }
      if maxBytes > 0 && ByteLen(text) + ByteLen(block) > maxBytes {
        KeptBlocksIs(ByteLen(before), logs, maxBytes, i);
        BlocksGrow(logs, i + 1, |logs|);
        var omitted := ByteLen(text) + ByteLen(block) - maxBytes;
        assert text + Marker(omitted) == before + (Blocks(logs[..i]) + Marker(omitted));
        return text + Marker(omitted), true;
      }
      text := text + block;
    }
    KeptBlocksIs(ByteLen(before), logs, maxBytes, |logs|);
    assert text == before + (Blocks(logs[..|logs|]) + "");
  }

  lemma NoBlocks(before: string, logs: seq<AgentLog>)
    ensures before + Blocks(logs[..0]) == before && ByteLen(Blocks(logs[..0])) == 0
  {
    assert logs[..0] == [];
  }

  /** An empty error output adds nothing; any other block has at least one byte. */
  lemma EmptyBlock(log: AgentLog)
    ensures log.content == "" ==> BlockOf(log) == "" && ByteLen(BlockOf(log)) == 0
    ensures log.content != "" ==> ByteLen(BlockOf(log)) > 0
  {
  }

  method RenderExecutionLog(events: seq<LogEvent>, logs: seq<AgentLog>, maxBytes: int)
    returns (content: string, truncated: bool)
    ensures content == EventPart(events, maxBytes) + BlockPart(EventPart(events, maxBytes), logs, maxBytes)
    ensures truncated <==> maxBytes > 0 && ByteLen(Full(events, logs)) > maxBytes
    ensures !truncated ==> content == Full(events, logs)
  {
    var text, cut1, cut2;
    text, cut1 := RenderEvents(events, maxBytes);
    content, cut2 := RenderBlocks(text, logs, maxBytes);
    truncated := cut1 || cut2;
    FlagMeaning(events, logs, maxBytes);
    hide ByteLen, Lines, Blocks, EventPart, BlockPart, LinesFit, BlocksFit;
  }

  // ----- what the rendering means -----

  /** Both parts fit exactly when the whole log does, and then the rendering is the whole log. */
  lemma FlagMeaning(events: seq<LogEvent>, logs: seq<AgentLog>, maxBytes: int)
    ensures var text := EventPart(events, maxBytes);
            var fits := LinesFit(events, maxBytes, |events|) && BlocksFit(ByteLen(text), logs, maxBytes, |logs|);
            && (fits <==> maxBytes <= 0 || ByteLen(Full(events, logs)) <= maxBytes)
            && (fits ==> text + BlockPart(text, logs, maxBytes) == Full(events, logs))
  {
    hide ByteLen, Lines, Blocks;
    ByteLenConcat(Lines(events), Blocks(logs));
    assert events[..|events|] == events && logs[..|logs|] == logs;
    if LinesFit(events, maxBytes, |events|) {
      KeptLinesIs(events, maxBytes, |events|);
      assert EventPart(events, maxBytes) == Lines(events) + "" == Lines(events);
      if BlocksFit(ByteLen(Lines(events)), logs, maxBytes, |logs|) {
        KeptBlocksIs(ByteLen(Lines(events)), logs, maxBytes, |logs|);
        assert Blocks(logs) + "" == Blocks(logs);
      }
    }
  }

  /**
    The rendering is kept lines, a marker exactly if a line was dropped, kept blocks, and a marker
    exactly if a block was dropped. For a positive limit all that is kept fits it, so the whole
    rendering exceeds it by its markers at most.
   */
  lemma RenderingIsBounded(events: seq<LogEvent>, logs: seq<AgentLog>, maxBytes: int)
    requires maxBytes > 0
    ensures var text := EventPart(events, maxBytes);
            var k, j := KeptLines(events, maxBytes, |events|), KeptBlocks(ByteLen(text), logs, maxBytes, |logs|);
            var marker1, marker2 := EventMarker(events, maxBytes, k), BlockMarker(ByteLen(text), logs, maxBytes, j);
            && text == Lines(events[..k]) + marker1
            && BlockPart(text, logs, maxBytes) == Blocks(logs[..j]) + marker2
            && ByteLen(Lines(events[..k])) <= maxBytes
            && ByteLen(Lines(events[..k]) + Blocks(logs[..j])) <= maxBytes
            && ByteLen(text + BlockPart(text, logs, maxBytes)) <= maxBytes + ByteLen(marker1) + ByteLen(marker2)
  {
    hide EventMarker, BlockMarker, ByteLen, Lines, Blocks;
    var text := EventPart(events, maxBytes);
    var k, j := KeptLines(events, maxBytes, |events|), KeptBlocks(ByteLen(text), logs, maxBytes, |logs|);
    WithinLimit(Lines(events[..k]), EventMarker(events, maxBytes, k), Blocks(logs[..j]),
                BlockMarker(ByteLen(text), logs, maxBytes, j), maxBytes);
  }

  /** Four texts in a row: the first fits, the third is empty or fits behind the first two. */
  lemma WithinLimit(a: string, b: string, c: string, d: string, maxBytes: int)
    requires ByteLen(a) <= maxBytes
    requires ByteLen(c) == 0 || ByteLen(a + b) + ByteLen(c) <= maxBytes
    ensures ByteLen(a + b + (c + d)) <= maxBytes + ByteLen(b) + ByteLen(d)
    ensures ByteLen(a + c) <= maxBytes
  {
    hide ByteLen;
    ByteLenConcat(a, b);
    ByteLenConcat(c, d);
    ByteLenConcat(a + b, c + d);
    ByteLenConcat(a, c);
  }

  // ----- the numbers in the markers -----

  /**
    If the lines before line `k` fit a positive limit and the lines up to it do not, the rendering of
    the events is the former and a marker with the bytes by which line `k` would exceed the limit.
   */
  lemma EventsAreCut(events: seq<LogEvent>, maxBytes: int, k: nat)
    requires maxBytes > 0 && k < |events|
    requires ByteLen(Lines(events[..k])) <= maxBytes < ByteLen(Lines(events[..k]) + LineOf(events[k]))
    ensures EventPart(events, maxBytes) ==
            Lines(events[..k]) + Marker(ByteLen(Lines(events[..k]) + LineOf(events[k])) - maxBytes)
  {
    hide Lines, ByteLen, LineOf, Marker;
    LinesSnoc(events, k);
    KeptLinesIs(events, maxBytes, k);
  }

  /**
    The number in the first marker is how far the first dropped line overshoots the limit. It is
    never more than the bytes of event text dropped, and equals them exactly when all lines but the
    last fill the limit to the last byte.
   */
  lemma MarkerCountsDroppedBytesIff(events: seq<LogEvent>, maxBytes: int)
    requires maxBytes > 0 && ByteLen(Lines(events)) > maxBytes
    ensures var k := KeptLines(events, maxBytes, |events|);
            && k < |events|
            && var kept := Lines(events[..k]);
               var omitted := ByteLen(kept + LineOf(events[k])) - maxBytes;
               var dropped := ByteLen(Lines(events)) - ByteLen(kept);
               && EventPart(events, maxBytes) == kept + Marker(omitted)
               && 0 < omitted <= dropped
               && (omitted == dropped <==> ByteLen(Lines(events[..|events| - 1])) == maxBytes)
  {
    hide Lines, ByteLen, LineOf, Marker;
    NoLines(events);
    assert events[..|events|] == events;
    var k := KeptLines(events, maxBytes, |events|);
    LinesSnoc(events, k);
    EventsAreCut(events, maxBytes, k);
    LinesGrow(events, k + 1, |events|);
    LinesGrow(events, k + 1, if k + 1 < |events| then |events| - 1 else |events|);
    LinesGrow(events, k, |events|);
  }

  /**
    The documented meaning fails on every log of two events or more whose first line is over the
    limit: nothing is kept, and the number falls short of the bytes dropped.
   */
  lemma MarkerUndercounts(events: seq<LogEvent>, maxBytes: int)
    requires |events| >= 2 && 0 < maxBytes < ByteLen(LineOf(events[0]))
    ensures KeptLines(events, maxBytes, |events|) == 0
    ensures EventPart(events, maxBytes) == Marker(ByteLen(LineOf(events[0])) - maxBytes)
    ensures ByteLen(LineOf(events[0])) - maxBytes < ByteLen(Lines(events))
  {
    hide ByteLen, LineOf, Lines, Marker;
    NoLines(events);
    LinesSnoc(events, 0);
    LinesGrow(events, 1, |events|);
    assert events[..|events|] == events;
    KeptLinesIs(events, maxBytes, 0);
  }

  /** The logs of agents that have any output. */
  function WithOutput(logs: seq<AgentLog>): seq<AgentLog> {
    if logs == [] then []
    else WithOutput(logs[..|logs| - 1]) + (if logs[|logs| - 1].content == "" then [] else [logs[|logs| - 1]])
  }

  lemma WithOutputSnoc(logs: seq<AgentLog>, log: AgentLog)
    ensures WithOutput(logs + [log]) == WithOutput(logs) + (if log.content == "" then [] else [log])
  {
    assert (logs + [log])[..|logs|] == logs;
  }

  lemma {:induction false} SameBlocks(logs: seq<AgentLog>)
    ensures Blocks(WithOutput(logs)) == Blocks(logs)
  {
    hide BlockOf;
    if logs != [] {
      var init, last := logs[..|logs| - 1], logs[|logs| - 1];
      SameBlocks(init);
      EmptyBlock(last);
      if last.content == "" {
        assert WithOutput(logs) == WithOutput(init) && Blocks(init) + "" == Blocks(init);
      } else {
        assert (WithOutput(init) + [last])[..|WithOutput(init)|] == WithOutput(init);
      }
    }
  }

  lemma {:induction false} OutputPrefix(logs: seq<AgentLog>, k: nat)
    requires k <= |logs|
    ensures WithOutput(logs[..k]) <= WithOutput(logs)
    decreases |logs|
  {
    if k < |logs| {
      OutputPrefix(logs[..|logs| - 1], k);
      assert logs[..|logs| - 1][..k] == logs[..k];
    } else {
      assert logs[..k] == logs;
    }
  }

  /** An agent without output leaves no trace in the rendering, not even in the number of a marker. */
  lemma SilentAgentsLeaveNoTrace(before: string, logs: seq<AgentLog>, maxBytes: int)
    ensures BlockPart(before, WithOutput(logs), maxBytes) == BlockPart(before, logs, maxBytes)
  {
    hide Blocks, ByteLen, WithOutput, BlockOf, Marker, KeptBlocks;
    var used, heard := ByteLen(before), WithOutput(logs);
    var k := KeptBlocks(used, logs, maxBytes, |logs|);
    var j := |WithOutput(logs[..k])|;
    OutputPrefix(logs, k);
    SameBlocks(logs[..k]);
    assert heard[..j] == WithOutput(logs[..k]);
    if k < |logs| {
      BlocksSnoc(logs, k);
      EmptyBlock(logs[k]);
      assert logs[k].content != "";
      OutputPrefix(logs, k + 1);
      SameBlocks(logs[..k + 1]);
      WithOutputSnoc(logs[..k], logs[k]);
      assert logs[..k + 1] == logs[..k] + [logs[k]];
      assert heard[..j + 1] == WithOutput(logs[..k + 1]);
    } else {
      assert logs[..k] == logs;
    }
    KeptBlocksIs(used, heard, maxBytes, j);
  }

  /**
    The number in the second marker is how far the first dropped block overshoots the limit behind
    everything written so far, the first marker included. For agents with output it equals the bytes
    of block text dropped exactly when, of the text before the blocks: it fits the limit, and all
    blocks but the last fill the rest; or it exceeds the limit already, by just the bytes of all
    blocks but the first.
   */
  lemma BlockMarkerCountsDroppedBytesIff(used: nat, logs: seq<AgentLog>, maxBytes: int)
    requires maxBytes > 0 && logs != [] && (forall i :: 0 <= i < |logs| ==> logs[i].content != "")
    requires used + ByteLen(Blocks(logs)) > maxBytes
    ensures var j := KeptBlocks(used, logs, maxBytes, |logs|);
            && j < |logs|
            && var omitted := used + ByteLen(Blocks(logs[..j + 1])) - maxBytes;
               var dropped := ByteLen(Blocks(logs)) - ByteLen(Blocks(logs[..j]));
               && (omitted == dropped <==>
                   if used <= maxBytes then used + ByteLen(Blocks(logs[..|logs| - 1])) == maxBytes
                   else used - maxBytes == ByteLen(Blocks(logs)) - ByteLen(Blocks(logs[..1])))
  {
    hide Blocks, ByteLen;
    NoBlocks("", logs);
    assert logs[..|logs|] == logs;
    var j := KeptBlocks(used, logs, maxBytes, |logs|);
    FirstBlockHasBytes(logs, |logs|);
    if 0 < j {
      FirstBlockHasBytes(logs, j);
    }
    assert used > maxBytes ==> j == 0;
    LastBlockHasBytes(logs);
    if j + 1 < |logs| {
      BlocksGrow(logs, j + 1, |logs| - 1);
    }
  }

  /**
    A practice match has at most one agent with output. If its block does not fit, the second
    number is right exactly when the text before fills the limit; with room left it falls short of
    the bytes dropped, and behind a first marker that is over the limit it exceeds them.
   */
  lemma OneBlockMarkerMiscounts(before: string, log: AgentLog, maxBytes: int)
    requires maxBytes > 0 && log.content != "" && ByteLen(before) + ByteLen(BlockOf(log)) > maxBytes
    ensures var omitted, dropped := ByteLen(before) + ByteLen(BlockOf(log)) - maxBytes, ByteLen(BlockOf(log));
            && BlockPart(before, [log], maxBytes) == Marker(omitted)
            && (omitted < dropped <==> ByteLen(before) < maxBytes)
            && (omitted > dropped <==> ByteLen(before) > maxBytes)
  {
    hide Blocks, ByteLen, BlockOf, Marker;
    NoBlocks(before, [log]);
    BlocksSnoc([log], 0);
    FirstBlockHasBytes([log], 1);
    NothingBefore([log]);
    KeptBlocksIs(ByteLen(before), [log], maxBytes, 0);
  }

  lemma NothingBefore(logs: seq<AgentLog>)
    ensures Blocks(logs[..0]) == ""
  {
    assert logs[..0] == [];
  }

  /**
    The same for the blocks: those before block `j` fit behind `before`, or there are none with any
    output; block `j` does not fit. The marker counts everything before it, a first marker included.
   */
  lemma BlocksAreCut(before: string, logs: seq<AgentLog>, maxBytes: int, j: nat)
    requires maxBytes > 0 && j < |logs| && logs[j].content != ""
    requires Blocks(logs[..j]) == "" || ByteLen(before + Blocks(logs[..j])) <= maxBytes
    requires ByteLen(before + Blocks(logs[..j]) + BlockOf(logs[j])) > maxBytes
    ensures BlockPart(before, logs, maxBytes) ==
            Blocks(logs[..j]) + Marker(ByteLen(before + Blocks(logs[..j]) + BlockOf(logs[j])) - maxBytes)
  {
    hide Blocks, ByteLen, BlockOf, Marker;
    NoBytes();
    BlocksSnoc(logs, j);
    EmptyBlock(logs[j]);
    ByteLenConcat(before, Blocks(logs[..j]));
    ByteLenConcat(before + Blocks(logs[..j]), BlockOf(logs[j]));
    KeptBlocksIs(ByteLen(before), logs, maxBytes, j);
  }

  lemma NoBytes()
    ensures ByteLen("") == 0
  {
  }

  lemma FirstBlockHasBytes(logs: seq<AgentLog>, k: nat)
    requires 0 < k <= |logs| && logs[0].content != ""
    ensures ByteLen(Blocks(logs[..k])) > 0
  {
    hide BlockOf, Blocks, ByteLen;
    BlocksSnoc(logs, 0);
    EmptyBlock(logs[0]);
    BlocksGrow(logs, 1, k);
  }

  lemma LastBlockHasBytes(logs: seq<AgentLog>)
    requires logs != [] && logs[|logs| - 1].content != ""
    ensures ByteLen(Blocks(logs[..|logs| - 1])) < ByteLen(Blocks(logs))
  {
    hide BlockOf, Blocks, ByteLen;
    BlocksSnoc(logs, |logs| - 1);
    assert logs[..|logs|] == logs;
    EmptyBlock(logs[|logs| - 1]);
  }
}
