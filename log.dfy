/** The message log (log.c): a buffer of at most 1000 lines that drops its oldest line
    when a new one arrives while it is full, the scroll position that follows the newest
    line, and the underline line that log_underline appends. */
module LogBuffer {
  import opened Bytes

  /** NUM_LINES. */
  const NUM_LINES: nat := 1000

  /** Lines the log page shows at once: top_line stays 32 lines above the last. */
  const PAGE_LINES: nat := 32

  /** The underline buffer: 74 characters and the terminating NUL. */
  const UNDERLINE_BUFFER: nat := 75

  /** The character log_underline repeats (0x81, a line-drawing glyph of the tracker's font). */
  const UNDERLINE_CHAR: char := 0x81 as char

  /** struct log_line: colour, text, font and whether the text is owned by the log. */
  datatype LogLine = LogLine(color: int, text: string, biosFont: int, mustFree: bool)

  /** A slot never written (the array is zero-initialised). */
  const EMPTY_LINE: LogLine := LogLine(0, "", 0, false)

  /** The lines held after one more line arrives: appended while there is room, else the
      oldest is dropped first. */
  function Appended(lines: seq<LogLine>, line: LogLine): (r: seq<LogLine>)
    requires |lines| <= NUM_LINES
    ensures |r| == Min(|lines| + 1, NUM_LINES) && r[|r| - 1] == line
    ensures r == (lines + [line])[|lines| + 1 - |r|..]
  {
    if |lines| < NUM_LINES then lines + [line] else lines[1..] + [line]
  }

  /** The lines held after each of `more` arrives in turn. */
  function AppendedAll(lines: seq<LogLine>, more: seq<LogLine>): (r: seq<LogLine>)
    requires |lines| <= NUM_LINES
    ensures |r| == Min(|lines| + |more|, NUM_LINES)
    ensures |more| > 0 ==> r[|r| - 1] == more[|more| - 1]
    decreases |more|
  {
    if |more| == 0 then lines else AppendedAll(Appended(lines, more[0]), more[1..])
  }

  /** The log always holds the newest lines in the order they came: the last
      min(n, 1000) of everything appended to it. */
  lemma {:induction false} LogKeepsNewest(lines: seq<LogLine>, more: seq<LogLine>)
    requires |lines| <= NUM_LINES
    ensures var all := lines + more;
      AppendedAll(lines, more) == all[|all| - Min(|all|, NUM_LINES)..]
    decreases |more|
  {
    var all := lines + more;
    if |more| == 0 {
      assert all == lines;
    } else {
      var next := Appended(lines, more[0]);
      LogKeepsNewest(next, more[1..]);
      KeepStep(lines, more, next);
    }
  }

  /** One arrival: the newest lines of what remains after it are the newest lines of all. */
  lemma KeepStep(lines: seq<LogLine>, more: seq<LogLine>, next: seq<LogLine>)
    requires |lines| <= NUM_LINES && |more| > 0 && next == Appended(lines, more[0])
    ensures var all := lines + more; var tail := next + more[1..];
      tail[|tail| - Min(|tail|, NUM_LINES)..] == all[|all| - Min(|all|, NUM_LINES)..]
  {
    var all := lines + more;
    var d := |lines| + 1 - |next|;
    var m := Min(|all|, NUM_LINES);
    if |lines| < NUM_LINES {
      assert d == 0;
    } else {
      assert d == 1 && |all| > NUM_LINES;
    }
    var tail := next + more[1..];
    DropThenAppend(lines, more, d);
    assert tail == all[d..];
    assert |tail| == |all| - d && Min(|tail|, NUM_LINES) == m;
    DropTwice(all, d, |all| - d - m);
  }

  /** Dropping d lines and then appending the rest one by one is dropping them from the whole. */
  lemma DropThenAppend(lines: seq<LogLine>, more: seq<LogLine>, d: nat)
    requires 0 < |more| && d <= |lines| + 1
    ensures (lines + [more[0]])[d..] + more[1..] == (lines + more)[d..]
  {
    assert lines + [more[0]] + more[1..] == lines + more;
  }

  lemma DropTwice(s: seq<LogLine>, d: nat, k: nat)
    requires d + k <= |s|
    ensures s[d..][k..] == s[d + k..]
  {
  }

  /** The scroll position after an append: 32 lines above the last, within 0..968. */
  function TopLineFor(lastLine: int): (t: int)
    ensures 0 <= t <= NUM_LINES - PAGE_LINES
    ensures lastLine >= PAGE_LINES && lastLine - PAGE_LINES <= NUM_LINES - PAGE_LINES ==> t == lastLine - PAGE_LINES
    ensures lastLine <= PAGE_LINES ==> t == 0
  {
    Clamp(lastLine - PAGE_LINES, 0, NUM_LINES - PAGE_LINES)
  }

  /** The page shows the newest line once there are more than 32: the last line sits one
      page below the top one. */
  lemma NewestLineOnPage(lastLine: int)
    requires PAGE_LINES <= lastLine < NUM_LINES
    ensures TopLineFor(lastLine) + PAGE_LINES == lastLine
  {
  }

  /** The outcome of log_underline's buffer fill. */
  datatype UnderlineFill = Filled(text: string) | WritesOutside(index: int)

  /** `n` underline characters. */
  function UnderlineText(n: nat): (r: string)
    ensures |r| == n && forall i :: 0 <= i < n ==> r[i] == UNDERLINE_CHAR
  {
    seq(n, _ => UNDERLINE_CHAR)
  }

  /** lines[], top_line and last_line. */
  class Log {
    const lines: array<LogLine>
    var topLine: int
    var lastLine: int

    ghost predicate Valid()
      reads this
    {
      lines.Length == NUM_LINES && -1 <= lastLine < NUM_LINES
    }

    /** The lines held, oldest first. */
    ghost function Contents(): seq<LogLine>
      reads this, lines
      requires Valid()
    {
      lines[..lastLine + 1]
    }

    /** The log as the program starts: empty, scrolled to the top. */
    constructor ()
      ensures Valid() && Contents() == [] && topLine == 0
    {
      lines := new LogLine[NUM_LINES](_ => EMPTY_LINE);
      topLine := 0;
      lastLine := -1;
    }

    /** log_append2: the line goes in after the others (the oldest dropped when all 1000
        are in use) and the page scrolls to it. */
    method Append2(biosFont: int, color: int, mustFree: bool, text: string)
      requires Valid()
      modifies this`lastLine, this`topLine, lines
      ensures Valid()
      ensures Contents() == Appended(old(Contents()), LogLine(color, text, biosFont, mustFree))
      ensures lastLine == Min(old(lastLine) + 1, NUM_LINES - 1)
      ensures topLine == TopLineFor(lastLine)
    {
      var line := LogLine(color, text, biosFont, mustFree);
      if lastLine < NUM_LINES - 1 {
        AppendWithRoom(line);
      } else {
        AppendWhenFull(line);
      }
      topLine := Clamp(lastLine - PAGE_LINES, 0, NUM_LINES - PAGE_LINES);
    }

    /** The line goes in after the last one. */
    method AppendWithRoom(line: LogLine)
      requires Valid() && lastLine < NUM_LINES - 1
      modifies this`lastLine, lines
      ensures Valid() && lastLine == old(lastLine) + 1
      ensures Contents() == old(Contents()) + [line]
    {
      ghost var before := lines[..lastLine + 1];
      lastLine := lastLine + 1;
      lines[lastLine] := line;
      forall k | 0 <= k < lastLine + 1
        ensures lines[k] == (before + [line])[k]
      {
      }
      assert lines[..lastLine + 1] == before + [line];
    }

    /** The oldest line goes and the new one takes the last slot. */
    method AppendWhenFull(line: LogLine)
      requires Valid() && lastLine == NUM_LINES - 1
      modifies lines
      ensures Valid()
      ensures Contents() == old(Contents())[1..] + [line]
    {
      ghost var before := lines[..];
      ShiftDown();
      lines[lastLine] := line;
      forall k | 0 <= k < NUM_LINES
        ensures lines[k] == (before[1..] + [line])[k]
      {
      }
      assert lines[..lastLine + 1] == before[1..] + [line];
    }

    /** The memmove of a full log: every line moves down one slot, the first is lost. */
    method ShiftDown()
      requires Valid() && lastLine == NUM_LINES - 1
      modifies lines
      ensures forall k :: 0 <= k < NUM_LINES - 1 ==> lines[k] == old(lines[k + 1])
    {
      var i := 0;
      while i < lastLine
        invariant 0 <= i <= lastLine
        invariant forall k :: 0 <= k < i ==> lines[k] == old(lines[k + 1])
        invariant forall k :: i <= k < NUM_LINES ==> lines[k] == old(lines[k])
      {
        lines[i] := lines[i + 1];
        i := i + 1;
      }
    }

    /** log_underline with the fill corrected to stop at the start of the buffer: a line
        of colour 2 holding `chars` underline characters, `chars` clamped to 0..74. */
    method Underline(chars: int)
      requires Valid()
      modifies this`lastLine, this`topLine, lines
      ensures Valid()
      ensures Contents() == Appended(old(Contents()), LogLine(2, UnderlineText(Clamp(chars, 0, UNDERLINE_BUFFER - 1)), 0, true))
      ensures topLine == TopLineFor(lastLine)
    {
      var text := UnderlineFilled(chars);
      Append2(0, 2, true, text);
    }
  }

  /** The buffer fill of log_underline, as it should be: `chars` characters, clamped to
      0..74, from the end of the text down to its first character. */
  method UnderlineFilled(chars: int) returns (text: string)
    ensures text == UnderlineText(Clamp(chars, 0, UNDERLINE_BUFFER - 1))
  {
    var buf := new char[UNDERLINE_BUFFER](_ => 0 as char);
    var n := Clamp(chars, 0, UNDERLINE_BUFFER - 1);
    var i := n;
    while i > 0
      invariant 0 <= i <= n
      invariant forall k :: i <= k < n ==> buf[k] == UNDERLINE_CHAR
    {
      i := i - 1;
      buf[i] := UNDERLINE_CHAR;
    }
    text := buf[..n];
  }

  /** The buffer fill of log_underline as written: the NUL goes at `chars`, then a do-while
      writes at chars - 1, chars - 2, and so on, testing the index only after each write.
      The first write that would fall outside the 75-byte buffer ends the model. */
  method UnderlineFilledAsWritten(chars: int) returns (r: UnderlineFill)
    ensures Clamp(chars, 0, UNDERLINE_BUFFER - 1) == 0 ==> r == WritesOutside(-1)
    ensures Clamp(chars, 0, UNDERLINE_BUFFER - 1) > 0 ==> r == Filled(UnderlineText(Clamp(chars, 0, UNDERLINE_BUFFER - 1)))
  {
    var buf := new char[UNDERLINE_BUFFER](_ => 0 as char);
    var n := Clamp(chars, 0, UNDERLINE_BUFFER - 1);
    buf[n] := 0 as char;
    var i := n - 1;
    while true
      invariant -1 <= i < n && (n > 0 ==> 0 <= i)
      invariant forall k :: i < k < n ==> buf[k] == UNDERLINE_CHAR
      decreases i + 1
    {
      if i < 0 {
        return WritesOutside(i);
      }
      buf[i] := UNDERLINE_CHAR;
      if i == 0 {
        return Filled(buf[..n]);
      }
      i := i - 1;
    }
  }
}
