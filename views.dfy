/** The integer arithmetic of the list views of bkmk's terminal interface
    (internal/tui/views.go): how many rows fit, which slice of the list is
    shown so that the selected row stays visible, the scroll indicator, the
    truncation of long commands, and the order of the action menu. The
    rendering itself (styles, string building) is not modelled. */
module Views {
  import opened Wrappers

  /** Lines the history view keeps for its header and footer. */
  const HistoryReserved: int := 8
  /** Lines the all-bookmarks view keeps for its header and footer. */
  const AllCommandsReserved: int := 6
  /** Rows shown however small the terminal is. */
  const MinVisible: int := 5
  /** Byte width of a rendered timestamp prefix such as "02 Jan 15:04 ". */
  const TimestampWidth: int := 13

  function Min(a: int, b: int): int { if a <= b then a else b }
  function Max(a: int, b: int): int { if a >= b then a else b }

  /** Rows available for list items on a terminal `height` lines tall. */
  function AvailableLines(height: int, reserved: int): (r: int)
    ensures r >= MinVisible
    ensures r >= height - reserved
    ensures r == MinVisible || r == height - reserved
  {
    if height - reserved < MinVisible then MinVisible else height - reserved
  }

  /** The visible slice `[offset, endIdx)` of a list of `total` rows. */
  datatype Window = Window(displayCount: int, offset: int, endIdx: int)

  /** The scroll window of a list view: as many rows as fit, scrolled just
      far enough to show the cursor, and never scrolled past the end. */
  function ScrollWindow(height: int, reserved: int, total: nat, cursor: int): (w: Window)
    ensures w.displayCount == Min(AvailableLines(height, reserved), total)
    ensures 0 <= w.offset
    ensures w.endIdx == Min(w.offset + w.displayCount, total)
    ensures w.endIdx <= total
  {
    var displayCount := Min(AvailableLines(height, reserved), total);
    var offset0 := if cursor >= displayCount then cursor - displayCount + 1 else 0;
    var offset := if offset0 + displayCount > total then Max(0, total - displayCount) else offset0;
    Window(displayCount, offset, Min(offset + displayCount, total))
  }

  /** The history view's window: at least five rows of a long enough list,
      the cursor's row always among them. */
  function HistoryWindow(height: int, total: nat, cursor: int): (w: Window)
    ensures w.displayCount == Min(AvailableLines(height, HistoryReserved), total)
    ensures w.displayCount >= Min(MinVisible, total)
    ensures 0 <= cursor < total ==> w.offset <= cursor < w.endIdx && w.endIdx - w.offset == w.displayCount
  {
    if 0 <= cursor < total then
      CursorVisible(height, HistoryReserved, total, cursor);
      ScrollWindow(height, HistoryReserved, total, cursor)
    else ScrollWindow(height, HistoryReserved, total, cursor)
  }

  /** The same for the all-bookmarks view, which reserves fewer lines. */
  function AllCommandsWindow(height: int, total: nat, cursor: int): (w: Window)
    ensures w.displayCount == Min(AvailableLines(height, AllCommandsReserved), total)
    ensures w.displayCount >= Min(MinVisible, total)
    ensures 0 <= cursor < total ==> w.offset <= cursor < w.endIdx && w.endIdx - w.offset == w.displayCount
  {
    if 0 <= cursor < total then
      CursorVisible(height, AllCommandsReserved, total, cursor);
      ScrollWindow(height, AllCommandsReserved, total, cursor)
    else ScrollWindow(height, AllCommandsReserved, total, cursor)
  }

  /** A cursor on the list is always on a shown row, and the window is then
      a full `displayCount` rows. */
  lemma CursorVisible(height: int, reserved: int, total: nat, cursor: int)
    requires 0 <= cursor < total
    ensures ScrollWindow(height, reserved, total, cursor).offset <= cursor
    ensures cursor < ScrollWindow(height, reserved, total, cursor).endIdx
    ensures ScrollWindow(height, reserved, total, cursor).endIdx
            - ScrollWindow(height, reserved, total, cursor).offset
            == ScrollWindow(height, reserved, total, cursor).displayCount
  {
  }

  /** The counts of the "↑ N more above" and "↓ N more below" line, present
      only when one of them is positive. */
  datatype Indicator = Indicator(above: int, below: int)

  function ScrollIndicator(w: Window, total: int): (r: Option<Indicator>)
    ensures r.Some? <==> w.offset > 0 || w.endIdx < total
    ensures r.Some? ==> r.value.above == w.offset && r.value.below == total - w.endIdx
  {
    if w.offset > 0 || w.endIdx < total then Some(Indicator(w.offset, total - w.endIdx)) else None
  }

  /** With the cursor on the list, the hidden rows above, the shown rows and
      the hidden rows below add up to the whole list, and the indicator
      appears exactly when the list is longer than the rows that fit. */
  lemma IndicatorIffOverflow(height: int, reserved: int, total: nat, cursor: int)
    requires 0 <= cursor < total
    ensures var w := ScrollWindow(height, reserved, total, cursor);
            w.offset + (w.endIdx - w.offset) + (total - w.endIdx) == total
            && 0 <= total - w.endIdx
            && (ScrollIndicator(w, total).Some? <==> AvailableLines(height, reserved) < total)
  {
    var w := ScrollWindow(height, reserved, total, cursor);
    CursorVisible(height, reserved, total, cursor);
    if AvailableLines(height, reserved) >= total {
      assert w.displayCount == total;
      assert w.offset == 0;
    }
  }

  // ---------------------------------------------------------------------
  // Truncation of long commands (Go measures and slices bytes)

  type Byte = b: int | 0 <= b < 256

  const Ellipsis: seq<Byte> := [46, 46, 46]

  /** Bytes a history row spends on its timestamp prefix. */
  function PrefixWidth(hasTimestamp: bool): int
  {
    if hasTimestamp then TimestampWidth else 0
  }

  /** Room for the command text on a history row: what is left of the
      screen width, less a margin of 10, once the timestamp prefix is drawn. */
  function MaxCmdWidth(width: int, hasTimestamp: bool): (r: int)
    ensures PrefixWidth(hasTimestamp) + r == width - 10
  {
    width - 10 - PrefixWidth(hasTimestamp)
  }

  /** A command longer than `maxWidth` bytes, when the width is above 10, is
      cut to `maxWidth - 3` bytes followed by "...". */
  function TruncateCommand(cmd: seq<Byte>, maxWidth: int): (r: seq<Byte>)
    ensures |cmd| > maxWidth > 10 ==>
              |r| == maxWidth && r == cmd[..maxWidth - 3] + Ellipsis
    ensures !(|cmd| > maxWidth > 10) ==> r == cmd
  {
    if |cmd| > maxWidth && maxWidth > 10 then cmd[..maxWidth - 3] + Ellipsis else cmd
  }

  /** The action screen's preview: cut to `width - 7` bytes plus "..." when
      longer than `width - 4` and the screen is wider than 20. */
  function PreviewCommand(cmd: seq<Byte>, width: int): (r: seq<Byte>)
    ensures |cmd| > width - 4 && width > 20 ==>
              |r| == width - 4 && r == cmd[..width - 7] + Ellipsis
    ensures !(|cmd| > width - 4 && width > 20) ==> r == cmd
  {
    if |cmd| > width - 4 && width > 20 then cmd[..width - 7] + Ellipsis else cmd
  }

  /** A shown command never exceeds its room once the room is above 10
      bytes, and it always begins like the full command. */
  lemma {:induction false} TruncateFits(cmd: seq<Byte>, maxWidth: int)
    requires maxWidth > 10
    ensures |TruncateCommand(cmd, maxWidth)| <= maxWidth
    ensures var r := TruncateCommand(cmd, maxWidth);
            var keep := if |cmd| > maxWidth then maxWidth - 3 else |cmd|;
            0 <= keep <= |r| && keep <= |cmd| && r[..keep] == cmd[..keep]
  {
    var r := TruncateCommand(cmd, maxWidth);
    if |cmd| > maxWidth {
      assert r[..maxWidth - 3] == cmd[..maxWidth - 3];
    } else {
      assert r == cmd;
    }
  }

  /** A history row, laid out as the history view draws it: once the room
      left for the command is above 10 bytes, the timestamp prefix and the
      shown command together fit in the width less the margin, and the
      shown command begins like the full one; a command that fits, or a row
      with no more room, is shown whole. */
  lemma {:induction false} HistoryRowFits(cmd: seq<Byte>, width: int, hasTimestamp: bool)
    ensures var room := MaxCmdWidth(width, hasTimestamp);
            var shown := TruncateCommand(cmd, room);
            && (room > 10 ==> PrefixWidth(hasTimestamp) + |shown| <= width - 10)
            && (room > 10 && |cmd| > room ==> shown[..room - 3] == cmd[..room - 3])
            && (room <= 10 || |cmd| <= room ==> shown == cmd)
  {
    var room := MaxCmdWidth(width, hasTimestamp);
    if room > 10 {
      TruncateFits(cmd, room);
    }
  }

  // ---------------------------------------------------------------------
  // The action menu

  datatype MenuItem = MenuItem(key: string, name: string)

  /** The rows of the action screen, top to bottom. */
  const ActionMenu: seq<MenuItem> :=
    [MenuItem("r", "Run command"), MenuItem("c", "Copy to clipboard"), MenuItem("", "Cancel")]
}
