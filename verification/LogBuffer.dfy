/** The process-wide log buffer, capped by bytes (src/shared/Log.cpp). */
module LogBuffer {

  const CAP_BYTES: nat := 10 * 1024 * 1024

  const TRUNCATED_SUFFIX: string := "... <truncated>"

  // ----- What the buffer stands for -----

  function Bytes(lines: seq<string>): nat {
    if lines == [] then 0 else |lines[0]| + Bytes(lines[1..])
  }

  /** What eviction from the front leaves of `lines`: it stops when the rest fits or one line is left. */
  function Kept(lines: seq<string>): (kept: seq<string>)
    ensures lines != [] ==> kept != []
  {
    if |lines| <= 1 || Bytes(lines) <= CAP_BYTES then lines else Kept(lines[1..])
  }

  datatype LogEvent = Wrote(level: char, line: string) | Cleared

  /** Debug lines are accepted by debug builds only. */
  predicate Accepted(level: char, debugLogging: bool) {
    debugLogging || level != 'D'
  }

  /** The lines accepted since the last clear. */
  function SinceClear(history: seq<LogEvent>, debugLogging: bool): seq<string> {
    if history == [] then []
    else
      var before := SinceClear(history[..|history| - 1], debugLogging);
      match history[|history| - 1]
      case Wrote(level, line) => if Accepted(level, debugLogging) then before + [line] else before
      case Cleared => []
  }

  /** The buffer after one event: what the methods of `LogState` do, event by event. */
  function AfterEvent(buffer: seq<string>, event: LogEvent, debugLogging: bool): seq<string> {
    match event
    case Wrote(level, line) => if Accepted(level, debugLogging) then Kept(buffer + [line]) else buffer
    case Cleared => []
  }

  function Replay(history: seq<LogEvent>, debugLogging: bool): seq<string> {
    if history == [] then []
    else AfterEvent(Replay(history[..|history| - 1], debugLogging), history[|history| - 1], debugLogging)
  }

  lemma {:induction false} BytesAppend(a: seq<string>, b: seq<string>)
    ensures Bytes(a + b) == Bytes(a) + Bytes(b)
  {
    if a == [] {
      assert a + b == b;
    } else {
      BytesAppend(a[1..], b);
      assert (a + b)[1..] == a[1..] + b;
    }
  }

  /** The size of the buffer is the sum of the sizes of its lines. */
  lemma BytesSpelledOut(lines: seq<string>, line: string)
    ensures Bytes([]) == 0 && Bytes(lines + [line]) == Bytes(lines) + |line|
  {
    BytesAppend(lines, [line]);
  }

  /** Evicting before a line is appended makes no difference: what did not fit will not fit later. */
  lemma {:induction false} KeptAbsorbs(lines: seq<string>, line: string)
    ensures Kept(Kept(lines) + [line]) == Kept(lines + [line])
  {
    if |lines| > 1 && Bytes(lines) > CAP_BYTES {
      BytesAppend(lines, [line]);
      assert (lines + [line])[1..] == lines[1..] + [line];
      KeptAbsorbs(lines[1..], line);
    }
  }

  function LastLines(lines: seq<string>, k: nat): seq<string>
    requires k <= |lines|
  {
    lines[|lines| - k..]
  }

  /** `kept` is the longest suffix of `lines` that fits, or the last line alone where not even that one fits. */
  ghost predicate LongestFittingSuffix(kept: seq<string>, lines: seq<string>) {
    && |kept| <= |lines| && kept == LastLines(lines, |kept|)
    && (Bytes(kept) <= 10_485_760 || (|kept| == 1 && |kept[0]| > 10_485_760))
    && (forall k :: |kept| < k <= |lines| ==> Bytes(LastLines(lines, k)) > 10_485_760)
    && (lines != [] ==> kept != [])
  }

  lemma {:induction false} KeptIsLongestSuffix(lines: seq<string>)
    ensures LongestFittingSuffix(Kept(lines), lines)
  {
    if |lines| <= 1 || Bytes(lines) <= CAP_BYTES {
      if |lines| == 1 {
        assert Bytes(lines) == |lines[0]|;
      }
    } else {
      var tail := lines[1..];
      KeptIsLongestSuffix(tail);
      var kept := Kept(lines);
      assert kept == LastLines(tail, |kept|) == LastLines(lines, |kept|);
      forall k | |kept| < k <= |lines|
        ensures Bytes(LastLines(lines, k)) > CAP_BYTES
      {
        if k < |lines| {
          assert LastLines(lines, k) == LastLines(tail, k);
        } else {
          assert LastLines(lines, k) == lines;
        }
      }
    }
  }

  lemma NoLongerThan(a: seq<string>, b: seq<string>, lines: seq<string>)
    requires LongestFittingSuffix(a, lines) && LongestFittingSuffix(b, lines)
    ensures |a| <= |b|
  {
    assert a == LastLines(lines, |a|);
  }

  /** Only one suffix can be the longest fitting one, so the description determines the buffer. */
  lemma LongestSuffixIsUnique(a: seq<string>, b: seq<string>, lines: seq<string>)
    requires LongestFittingSuffix(a, lines) && LongestFittingSuffix(b, lines)
    ensures a == b
  {
    NoLongerThan(a, b, lines);
    NoLongerThan(b, a, lines);
  }

  lemma {:induction false} ReplayIsKept(history: seq<LogEvent>, debugLogging: bool)
    ensures Replay(history, debugLogging) == Kept(SinceClear(history, debugLogging))
  {
    if history != [] {
      var last := history[|history| - 1];
      ReplayIsKept(history[..|history| - 1], debugLogging);
      if last.Wrote? {
        KeptAbsorbs(SinceClear(history[..|history| - 1], debugLogging), last.line);
      }
    }
  }

  /**
    After any sequence of writes and clears the buffer is the longest suffix of the lines accepted since the last
    clear that fits into 10 MiB, or the last of them alone where that one line exceeds the cap.
   */
  lemma BufferIsLongestSuffix(history: seq<LogEvent>, debugLogging: bool)
    ensures LongestFittingSuffix(Replay(history, debugLogging), SinceClear(history, debugLogging))
  {
    ReplayIsKept(history, debugLogging);
    KeptIsLongestSuffix(SinceClear(history, debugLogging));
  }

  lemma KeptKeepsLast(lines: seq<string>, line: string)
    ensures var kept := Kept(lines + [line]); kept != [] && kept[|kept| - 1] == line
  {
    KeptIsLongestSuffix(lines + [line]);
  }

  /** The newest accepted line is always kept whole; release builds drop debug lines and nothing else. */
  lemma NewestLineIsKept(history: seq<LogEvent>, level: char, line: string, debugLogging: bool)
    ensures var before, after := Replay(history, debugLogging), Replay(history + [Wrote(level, line)], debugLogging);
            if level == 'D' && !debugLogging then after == before else after != [] && after[|after| - 1] == line
  {
    assert (history + [Wrote(level, line)])[..|history|] == history;
    KeptKeepsLast(Replay(history, debugLogging), line);
  }

  // ----- Bounded copies -----

  function Min(a: nat, b: nat): nat {
    if a <= b then a else b
  }

  function Truncated(line: string, maxBytes: nat): string {
    if |line| <= maxBytes then line
    else if maxBytes > |TRUNCATED_SUFFIX| then line[..maxBytes - |TRUNCATED_SUFFIX|] + TRUNCATED_SUFFIX
    else line[..maxBytes]
  }

  lemma TruncatedFits(line: string, maxBytes: nat)
    ensures |Truncated(line, maxBytes)| == Min(|line|, maxBytes)
    ensures |line| <= maxBytes ==> Truncated(line, maxBytes) == line
    ensures |line| > maxBytes > 15 ==>
              Truncated(line, maxBytes) == line[..maxBytes - 15] + "... <truncated>"
    ensures |line| > maxBytes && maxBytes <= 15 ==> Truncated(line, maxBytes) == line[..maxBytes]
  {
    assert |TRUNCATED_SUFFIX| == 15;
    if |line| > maxBytes > |TRUNCATED_SUFFIX| {
      assert (line[..maxBytes - |TRUNCATED_SUFFIX|] + TRUNCATED_SUFFIX)[maxBytes - |TRUNCATED_SUFFIX|..] == TRUNCATED_SUFFIX;
    }
  }

  // ----- The state -----

  class LogState {
    var buffer: seq<string>
    var bufferBytes: nat

    /** The byte counter is the sum of the line sizes. */
    ghost predicate Valid()
      reads this
    {
      bufferBytes == Bytes(buffer)
    }

    constructor ()
      ensures Valid() && buffer == []
    {
      buffer, bufferBytes := [], 0;
    }

    method LogLine(level: char, line: string, debugLogging: bool)
      requires Valid()
      modifies this
      ensures Valid()
      ensures buffer == AfterEvent(old(buffer), Wrote(level, line), debugLogging)
    {
      if !debugLogging && level == 'D' {
        return;
      }
      bufferBytes := bufferBytes + |line|;
      BytesAppend(buffer, [line]);
      buffer := buffer + [line];
      while bufferBytes > CAP_BYTES && |buffer| > 1
        invariant Valid()
        invariant Kept(buffer) == Kept(old(buffer) + [line])
        decreases |buffer|
      {
        bufferBytes := bufferBytes - |buffer[0]|;
        buffer := buffer[1..];
      }
    }

    method Clear()
      modifies this
      ensures Valid() && buffer == []
    {
      buffer := [];
      bufferBytes := 0;
    }

    /** All lines, oldest first. */
    method RecentLines() returns (lines: seq<string>)
      ensures lines == buffer
    {
      lines := buffer;
    }

    /** The newest `maxLines` lines, oldest first, each cut to `maxBytesPerLine` bytes; the buffer keeps its lines whole. */
    method RecentLinesBounded(maxLines: nat, maxBytesPerLine: nat) returns (result: seq<string>)
      ensures |result| == Min(maxLines, |buffer|)
      ensures forall i :: 0 <= i < |result| ==> result[i] == Truncated(buffer[|buffer| - |result| + i], maxBytesPerLine)
      ensures forall i :: 0 <= i < |result| ==> |result[i]| <= maxBytesPerLine
    {
      var count := if maxLines < |buffer| then maxLines else |buffer|;
      var first := |buffer| - count;
      result := [];
      var current := first;
      while current != |buffer|
        invariant first <= current <= |buffer| && |result| == current - first
        invariant forall i :: 0 <= i < |result| ==> result[i] == Truncated(buffer[first + i], maxBytesPerLine)
        invariant forall i :: 0 <= i < |result| ==> |result[i]| <= maxBytesPerLine
        decreases |buffer| - current
      {
        var line := buffer[current];
        TruncatedFits(line, maxBytesPerLine);
        if |line| <= maxBytesPerLine {
          result := result + [line];
        } else if maxBytesPerLine > |TRUNCATED_SUFFIX| {
          result := result + [line[..maxBytesPerLine - |TRUNCATED_SUFFIX|] + TRUNCATED_SUFFIX];
        } else {
          result := result + [line[..maxBytesPerLine]];
        }
        current := current + 1;
      }
    }
  }
}
