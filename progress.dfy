/**
 * The progress pane of the installation screen: the log entries it is fed,
 * the window of entries it shows, how a long entry is shortened, and the
 * clipping every screen write goes through.
 */
module Progress {
  import opened Wrappers
  import opened Text

  /** The curses colour pairs the installer logs with (pairs 2 to 6). */
  datatype Color = Highlight | Success | Error | Info | Normal

  /** One call of the screen's `add_log(message, color_pair)`. */
  datatype LogEntry = LogEntry(text: string, color: Color)

  /** The entries shown: Python's `log_lines[-(box_height - 4):]`, of which
      only positions below `box_height - 3` are drawn. They are consecutive
      entries of the log, at most `box_height - 3` of them, and none at all
      in a box less than 4 high. */
  function VisibleEntries(log: seq<LogEntry>, boxHeight: int): (r: seq<LogEntry>)
    ensures var window := TailFrom(log, -(boxHeight - 4));
      && |r| == (if |window| <= boxHeight - 3 then |window| else if boxHeight > 3 then boxHeight - 3 else 0)
      && r == window[..|r|]
    ensures boxHeight <= 3 ==> r == []
  {
    var window := TailFrom(log, -(boxHeight - 4));
    var drawn := if boxHeight - 3 <= 0 then 0 else boxHeight - 3;
    if |window| <= drawn then window
    else window[..drawn]
  }

  /** An over-long entry is cut to `box_width - 7` characters followed by "...". */
  function FitLine(line: string, boxWidth: int): (r: string)
    ensures |line| <= boxWidth - 4 ==> r == line
    ensures |line| > boxWidth - 4 ==> |r| >= 3 && r[|r| - 3..] == "..." && r[..|r| - 3] <= line
    ensures boxWidth >= 7 ==> |r| <= boxWidth - 4
  {
    if |line| > boxWidth - 4 then HeadTo(line, boxWidth - 7) + "..." else line
  }

  /** The text drawn for each visible entry, top to bottom. */
  function DisplayedLines(log: seq<LogEntry>, boxHeight: int, boxWidth: int): (r: seq<string>)
    ensures |r| == |VisibleEntries(log, boxHeight)|
    ensures forall i | 0 <= i < |r| :: r[i] == FitLine(VisibleEntries(log, boxHeight)[i].text, boxWidth)
  {
    var shown := VisibleEntries(log, boxHeight);
    seq(|shown|, i requires 0 <= i < |shown| => FitLine(shown[i].text, boxWidth))
  }

  /** What `safe_addstr(y, x, text)` hands to curses on a `maxY` by `maxX`
      screen: nothing when `y >= maxY` or `x >= maxX`, otherwise the text
      cut to `maxX - x - 1` characters. */
  function SafeAddstr(y: int, x: int, text: string, maxY: int, maxX: int): (r: Option<string>)
    ensures r.None? <==> y >= maxY || x >= maxX
    ensures r.Some? ==> r.value <= text && |r.value| <= maxX - x - 1
    ensures r.Some? && |text| <= maxX - x - 1 ==> r.value == text
    ensures r.Some? && |text| > maxX - x - 1 ==> r.value == text[..maxX - x - 1]
  {
    if y >= maxY || x >= maxX then None
    else
      var available := maxX - x - 1;
      Some(if |text| > available then text[..available] else text)
  }

  /** With room for at least one entry, the pane shows exactly the newest
      `box_height - 4` entries, or all of them while there are fewer. */
  lemma VisibleEntriesAreNewest(log: seq<LogEntry>, boxHeight: int)
    requires boxHeight >= 5
    ensures var r := VisibleEntries(log, boxHeight);
      && |r| == (if |log| <= boxHeight - 4 then |log| else boxHeight - 4)
      && r == log[|log| - |r|..]
  {
  }

  /** In a box at least 5 high a new entry is on screen, at the bottom of the
      pane; at height 4 the oldest entry is drawn instead. */
  lemma NewestEntryShown(log: seq<LogEntry>, e: LogEntry, boxHeight: int)
    requires boxHeight >= 5
    ensures var r := VisibleEntries(log + [e], boxHeight);
      r != [] && r[|r| - 1] == e
  {
    VisibleEntriesAreNewest(log + [e], boxHeight);
  }

  /** With a box height of exactly 4, Python's `log_lines[-0:]` is the whole
      list and only its first, oldest entry is drawn. */
  lemma ZeroWindowShowsOldest(log: seq<LogEntry>)
    requires log != []
    ensures VisibleEntries(log, 4) == [log[0]]
  {
  }

  /** In a box at least 7 wide every shown line fits the pane's `box_width - 4`
      columns; a line that fits is shown as it is, and a shortened one keeps
      its first `box_width - 7` characters and ends in "...". */
  lemma FitLineFits(line: string, boxWidth: int)
    requires boxWidth >= 7
    ensures |FitLine(line, boxWidth)| <= boxWidth - 4
    ensures |line| <= boxWidth - 4 ==> FitLine(line, boxWidth) == line
    ensures |line| > boxWidth - 4 ==>
      |FitLine(line, boxWidth)| == boxWidth - 4 &&
      FitLine(line, boxWidth)[..boxWidth - 7] == line[..boxWidth - 7] &&
      FitLine(line, boxWidth)[boxWidth - 7..] == "..."
  {
  }

  /** Below width 7 the slice bound is negative and every shortened line is
      longer than the pane: `"abcdefgh"` in a box of width 6 becomes ten
      characters, not two. */
  lemma FitLineNarrowBox(line: string, boxWidth: int)
    requires boxWidth < 7 && |line| > boxWidth - 4
    ensures |FitLine(line, boxWidth)| > boxWidth - 4
  {
    assert HeadTo("abcdefgh", -1) == "abcdefg";
    assert FitLine("abcdefgh", 6) == "abcdefg...";
  }

  /** A box less than 4 high draws no entry, however long the log. */
  lemma LowBoxDrawsNothing(log: seq<LogEntry>, boxHeight: int, boxWidth: int)
    requires boxHeight <= 3
    ensures DisplayedLines(log, boxHeight, boxWidth) == []
  {
  }

  /** Every line of the pane fits it, for every log. */
  lemma DisplayedLinesFit(log: seq<LogEntry>, boxHeight: int, boxWidth: int)
    requires boxWidth >= 7
    ensures forall l | l in DisplayedLines(log, boxHeight, boxWidth) :: |l| <= boxWidth - 4
  {
    var r := DisplayedLines(log, boxHeight, boxWidth);
    forall l | l in r ensures |l| <= boxWidth - 4 {
      var i :| 0 <= i < |r| && r[i] == l;
      FitLineFits(VisibleEntries(log, boxHeight)[i].text, boxWidth);
    }
  }
}
