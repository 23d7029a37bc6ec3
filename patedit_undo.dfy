/** The pattern editor's undo machinery (page_patedit.c): the snapshot of a rectangle of
    the current pattern (snap_copy), the ten-slot history ring those snapshots go into
    (pated_history_add2), and the cursor operations that save into it or start playback.

    The pattern a snapshot copies comes in as a parameter, a sequence of 64 cells per
    row: song_get_pattern and song_get_rows_in_pattern are not part of this model. */
module PatternUndo {
  import opened Bytes
  import opened SongModel

  /** Number of slots in the undo ring. */
  const HISTORY_SLOTS: nat := 10

  /** The highest pattern number set_current_pattern accepts. */
  const LAST_EDIT_PATTERN: nat := 199

  /** struct pattern_snap: the copied cells, the rectangle's size (`channels` by `rows`),
      the description of the change it undoes, whether that description is owned, the
      rectangle's corner and the pattern it was taken from. */
  datatype Snap = Snap(data: seq<Note>, channels: int, rows: int, op: Option<string>,
                       opAllocated: bool, x: int, y: int, patternNo: int)

  /** A history slot before its first use (the ring is zero-initialised). */
  const EMPTY_SNAP: Snap := Snap([], 0, 0, None, false, 0, 0, 0)

  /** fast_save as the program starts. */
  const FAST_SAVE_START: Snap := Snap([], 0, 0, Some("Fast Pattern Save"), false, 0, 0, -1)

  // ---------------------------------------------------------------------------
  // snap_copy

  /** What snap_copy needs of its rectangle to stay inside a pattern of totalRows rows:
      the columns within the 64 channels and the rows it copies within the pattern. */
  predicate SnapFits(totalRows: int, x: int, y: int, width: int, height: int) {
    0 <= totalRows && 0 <= x && 0 <= width && x + width <= MAX_CHANNELS
    && 0 <= y && 0 <= height && y + Min(height, totalRows) <= totalRows
  }

  /** Row `row` of a snapshot: row row + y of the pattern from channel x, `width` cells,
      when the rectangle and the pattern both have the row; blank cells otherwise. */
  function SnapRow(pattern: seq<Note>, totalRows: int, x: int, y: int, width: int, height: int, row: nat): (r: seq<Note>)
    requires SnapFits(totalRows, x, y, width, height) && |pattern| == MAX_CHANNELS * totalRows
    ensures |r| == width
  {
    if row < Min(height, totalRows) then
      var src := MAX_CHANNELS * (row + y) + x;
      pattern[src .. src + width]
    else Blanks(width)
  }

  /** `n` blank cells (what the memset leaves). */
  function Blanks(n: nat): (r: seq<Note>)
    ensures |r| == n && forall k :: 0 <= k < n ==> r[k] == BLANK_NOTE
  {
    seq(n, _ => BLANK_NOTE)
  }

  /** The rows of a width by height snapshot. */
  function SnapRowList(pattern: seq<Note>, totalRows: int, x: int, y: int, width: int, height: int): (r: seq<seq<Note>>)
    requires SnapFits(totalRows, x, y, width, height) && |pattern| == MAX_CHANNELS * totalRows
    ensures |r| == height && Uniform(r, width)
  {
    seq(height, row requires 0 <= row => SnapRow(pattern, totalRows, x, y, width, height, row))
  }

  /** Row `row` of the list is SnapRow's row (stated per row, so that proofs about one row
      do not unfold every other). */
  lemma SnapRowListAt(pattern: seq<Note>, totalRows: int, x: int, y: int, width: int, height: int, row: nat)
    requires SnapFits(totalRows, x, y, width, height) && |pattern| == MAX_CHANNELS * totalRows
    requires row < height
    ensures SnapRowList(pattern, totalRows, x, y, width, height)[row] == SnapRow(pattern, totalRows, x, y, width, height, row)
  {
  }

  /** The rows past the pattern's last are blank. */
  lemma SnapRowsBlankPast(pattern: seq<Note>, totalRows: int, x: int, y: int, width: int, height: int)
    requires SnapFits(totalRows, x, y, width, height) && |pattern| == MAX_CHANNELS * totalRows
    ensures var rows := SnapRowList(pattern, totalRows, x, y, width, height);
      forall i :: Min(height, totalRows) <= i < height ==> rows[i] == Blanks(width)
  {
    forall i | Min(height, totalRows) <= i < height {
      SnapRowListAt(pattern, totalRows, x, y, width, height, i);
    }
  }

  /** The cells of a width by height snapshot, row after row. */
  function SnapCells(pattern: seq<Note>, totalRows: int, x: int, y: int, width: int, height: int): (r: seq<Note>)
    requires SnapFits(totalRows, x, y, width, height) && |pattern| == MAX_CHANNELS * totalRows
    ensures |r| == width * height
  {
    var rows := SnapRowList(pattern, totalRows, x, y, width, height);
    FlattenLength(rows, width);
    AreaIsProduct(width, height);
    Flatten(rows)
  }

  // ---------------------------------------------------------------------------
  // Rows laid out one after the other

  /** The rows one after the other, as a snapshot's data holds them. */
  function Flatten(rows: seq<seq<Note>>): seq<Note>
  {
    if |rows| == 0 then [] else Flatten(rows[..|rows| - 1]) + rows[|rows| - 1]
  }

  /** Every row has `width` cells. */
  predicate Uniform(rows: seq<seq<Note>>, width: nat) {
    forall i :: 0 <= i < |rows| ==> |rows[i]| == width
  }

  /** The number of cells in n rows of `width` cells, counted row by row. */
  function Area(width: nat, n: nat): nat
  {
    if n == 0 then 0 else Area(width, n - 1) + width
  }

  lemma {:induction false} AreaIsProduct(width: nat, n: nat)
    ensures Area(width, n) == width * n
  {
    if n > 0 {
      AreaIsProduct(width, n - 1);
      assert width * n == width * (n - 1) + width;
    }
  }

  lemma {:induction false} AreaMonotone(width: nat, m: nat, n: nat)
    requires m <= n
    ensures Area(width, m) <= Area(width, n)
  {
    if m < n {
      AreaMonotone(width, m, n - 1);
    }
  }

  lemma {:induction false} FlattenLength(rows: seq<seq<Note>>, width: nat)
    requires Uniform(rows, width)
    ensures |Flatten(rows)| == Area(width, |rows|)
  {
    if |rows| > 0 {
      var init := rows[..|rows| - 1];
      assert forall i :: 0 <= i < |init| ==> init[i] == rows[i];
      FlattenLength(init, width);
    }
  }

  /** Row i of the rows starts at Area(width, i) of their layout. */
  lemma {:induction false} FlattenRowAt(rows: seq<seq<Note>>, width: nat, i: nat)
    requires Uniform(rows, width) && i < |rows|
    ensures Area(width, i) + width <= |Flatten(rows)|
    ensures Flatten(rows)[Area(width, i) .. Area(width, i) + width] == rows[i]
  {
    FlattenLength(rows, width);
    AreaMonotone(width, i + 1, |rows|);
    var init := rows[..|rows| - 1];
    assert forall j :: 0 <= j < |init| ==> init[j] == rows[j];
    FlattenLength(init, width);
    var p, q := Flatten(init), rows[|rows| - 1];
    assert Flatten(rows) == p + q;
    var start := Area(width, i);
    if i == |rows| - 1 {
      SliceOfAppend(p, q, |p|, |p| + |q|);
    } else {
      AreaMonotone(width, i + 1, |init|);
      FlattenRowAt(init, width, i);
      SliceOfAppend(p, q, start, start + width);
    }
  }

  /** A stretch of p + q that lies within p, or is exactly q. */
  lemma SliceOfAppend(p: seq<Note>, q: seq<Note>, i: nat, j: nat)
    requires i <= j <= |p| || (i == |p| && j == |p| + |q|)
    ensures j <= |p| ==> (p + q)[i .. j] == p[i .. j]
    ensures i == |p| && j == |p| + |q| ==> (p + q)[i .. j] == q
  {
    if j <= |p| {
      assert (p + q)[i .. j] == p[i .. j];
    } else {
      assert (p + q)[i .. j] == q;
    }
  }

  /** One more row: the layout of the first n + 1 rows is that of the first n, then row n. */
  lemma FlattenStep(rows: seq<seq<Note>>, n: nat)
    requires n < |rows|
    ensures Flatten(rows[..n + 1]) == Flatten(rows[..n]) + rows[n]
  {
    assert rows[..n + 1][..n] == rows[..n];
  }

  /** Rows that are all blank from row m on lay out as the first m rows, then blanks. */
  lemma {:induction false} FlattenBlankTail(rows: seq<seq<Note>>, width: nat, m: nat)
    requires Uniform(rows, width) && m <= |rows|
    requires forall i :: m <= i < |rows| ==> rows[i] == Blanks(width)
    ensures Area(width, m) <= Area(width, |rows|)
    ensures Flatten(rows) == Flatten(rows[..m]) + Blanks(Area(width, |rows|) - Area(width, m))
  {
    AreaMonotone(width, m, |rows|);
    if |rows| > m {
      var init := rows[..|rows| - 1];
      assert forall j :: 0 <= j < |init| ==> init[j] == rows[j];
      assert init[..m] == rows[..m];
      FlattenBlankTail(init, width, m);
      AreaMonotone(width, m, |init|);
      var before := Area(width, |init|) - Area(width, m);
      assert Blanks(before) + Blanks(width) == Blanks(before + width);
    } else {
      assert rows[..m] == rows;
    }
  }

  // ---------------------------------------------------------------------------
  // What a snapshot holds

  /** In coordinates: cell `ch` of row `row` of the snapshot sits at index width * row + ch
      and is the pattern's cell at row row + y, channel x + ch when that row exists, blank
      when the rectangle reaches past the pattern. */
  lemma SnapCellAt(pattern: seq<Note>, totalRows: int, x: int, y: int, width: int, height: int, row: nat, ch: nat)
    requires SnapFits(totalRows, x, y, width, height) && |pattern| == MAX_CHANNELS * totalRows
    requires row < height && ch < width
    ensures width * row + ch < width * height
    ensures SnapCells(pattern, totalRows, x, y, width, height)[width * row + ch] ==
      if row < totalRows then pattern[MAX_CHANNELS * (row + y) + x + ch] else BLANK_NOTE
  {
    var rows := SnapRowList(pattern, totalRows, x, y, width, height);
    var cells := SnapCells(pattern, totalRows, x, y, width, height);
    assert cells == Flatten(rows);
    var start := Area(width, row);
    AreaIsProduct(width, row);
    FlattenRowAt(rows, width, row);
    assert cells[start + ch] == rows[row][ch];
    var r := SnapRow(pattern, totalRows, x, y, width, height, row);
    SnapRowListAt(pattern, totalRows, x, y, width, height, row);
    if row < totalRows {
      var src := MAX_CHANNELS * (row + y) + x;
      assert r == pattern[src .. src + width];
      assert r[ch] == pattern[src + ch];
    } else {
      assert r == Blanks(width);
    }
  }

  /** Two adjacent stretches of a sequence make the stretch they cover. */
  lemma AppendStretch(front: seq<Note>, back: seq<Note>, source: seq<Note>, a: nat, b: nat, c: nat)
    requires a <= b <= c <= |source| && front == source[a .. b] && back == source[b .. c]
    ensures front + back == source[a .. c]
  {
    assert source[a .. b] + source[b .. c] == source[a .. c];
  }

  /** A snapshot spanning all 64 channels is, row for row, one stretch of the pattern. */
  lemma {:induction false} WholeRows(pattern: seq<Note>, totalRows: int, y: int, height: int, n: nat)
    requires SnapFits(totalRows, 0, y, MAX_CHANNELS, height) && |pattern| == MAX_CHANNELS * totalRows
    requires n <= Min(height, totalRows)
    ensures Flatten(SnapRowList(pattern, totalRows, 0, y, MAX_CHANNELS, height)[..n]) ==
      pattern[MAX_CHANNELS * y .. MAX_CHANNELS * y + MAX_CHANNELS * n]
  {
    var rows := SnapRowList(pattern, totalRows, 0, y, MAX_CHANNELS, height);
    if n > 0 {
      WholeRows(pattern, totalRows, y, height, n - 1);
      FlattenStep(rows, n - 1);
      var a, b, c := MAX_CHANNELS * y, MAX_CHANNELS * y + MAX_CHANNELS * (n - 1), MAX_CHANNELS * y + MAX_CHANNELS * n;
      SnapRowListAt(pattern, totalRows, 0, y, MAX_CHANNELS, height, n - 1);
      assert rows[n - 1] == SnapRow(pattern, totalRows, 0, y, MAX_CHANNELS, height, n - 1) == pattern[b .. c];
      AppendStretch(Flatten(rows[..n - 1]), rows[n - 1], pattern, a, b, c);
    } else {
      assert rows[..0] == [];
    }
  }

  /** A snapshot of the whole pattern, as pated_save and fast_save_update take, is the
      pattern itself. */
  lemma WholePatternSnap(pattern: seq<Note>, totalRows: nat)
    requires |pattern| == MAX_CHANNELS * totalRows
    ensures SnapFits(totalRows, 0, 0, MAX_CHANNELS, totalRows)
    ensures SnapCells(pattern, totalRows, 0, 0, MAX_CHANNELS, totalRows) == pattern
  {
    var rows := SnapRowList(pattern, totalRows, 0, 0, MAX_CHANNELS, totalRows);
    WholeRows(pattern, totalRows, 0, totalRows, totalRows);
    assert rows[..totalRows] == rows;
    assert pattern[0 .. MAX_CHANNELS * totalRows] == pattern;
  }

  // ---------------------------------------------------------------------------
  // The copy

  /** snap_copy: the snapshot takes the rectangle's size and corner and its cells (a blank
      fill first when it has more rows than the pattern; a single copy when it spans all 64
      channels, else one copy per row); its description and pattern number stay. */
  method SnapCopy(s: Snap, pattern: seq<Note>, totalRows: int, x: int, y: int, width: int, height: int)
    returns (r: Snap)
    requires SnapFits(totalRows, x, y, width, height) && |pattern| == MAX_CHANNELS * totalRows
    ensures r == s.(data := SnapCells(pattern, totalRows, x, y, width, height),
                    channels := width, rows := height, x := x, y := y)
  {
    AreaIsProduct(width, height);
    var a := new Note[width * height];
    FillSnap(a, pattern, totalRows, x, y, width, height);
    r := s.(data := a[..], channels := width, rows := height, x := x, y := y);
  }

  /** The body of snap_copy between the allocation and the bookkeeping. */
  method FillSnap(a: array<Note>, pattern: seq<Note>, totalRows: int, x: int, y: int, width: int, height: int)
    requires SnapFits(totalRows, x, y, width, height) && |pattern| == MAX_CHANNELS * totalRows
    requires a.Length == Area(width, height)
    modifies a
    ensures a[..] == Flatten(SnapRowList(pattern, totalRows, x, y, width, height))
  {
    if height > totalRows {
      ClearCells(a);
    }
    ghost var rows := SnapRowList(pattern, totalRows, x, y, width, height);
    ghost var m := Min(height, totalRows);
    ghost var k := Area(width, m);
    SnapRowsBlankPast(pattern, totalRows, x, y, width, height);
    FlattenBlankTail(rows, width, m);
    CopyRectangle(a, pattern, totalRows, x, y, width, height);
    assert a[..] == a[..k] + a[k..];
    if height > totalRows {
      assert a[k..] == Blanks(a.Length - k);
    } else {
      assert a[..] == a[..k];
      assert rows[..m] == rows;
    }
  }

  /** The copying part of snap_copy: one copy when the rectangle spans all 64 channels,
      else one per row. */
  method CopyRectangle(a: array<Note>, pattern: seq<Note>, totalRows: int, x: int, y: int, width: int, height: int)
    requires SnapFits(totalRows, x, y, width, height) && |pattern| == MAX_CHANNELS * totalRows
    requires a.Length == Area(width, height)
    modifies a
    ensures var m := Min(height, totalRows);
      Area(width, m) <= a.Length
      && a[..Area(width, m)] == Flatten(SnapRowList(pattern, totalRows, x, y, width, height)[..m])
      && a[Area(width, m)..] == old(a[Area(width, m)..])
  {
    var m := Min(height, totalRows);
    AreaMonotone(width, m, height);
    if x == 0 && width == MAX_CHANNELS {
      WholeRows(pattern, totalRows, y, height, m);
      AreaIsProduct(MAX_CHANNELS, m);
      AreaIsProduct(MAX_CHANNELS, height);
      CopyWhole(a, pattern, totalRows, y, height);
    } else {
      CopyRows(a, pattern, totalRows, x, y, width, height);
    }
  }

  /** The memset of a snapshot taller than its pattern. */
  method ClearCells(a: array<Note>)
    modifies a
    ensures a[..] == Blanks(a.Length)
  {
    var i := 0;
    while i < a.Length
      invariant 0 <= i <= a.Length
      invariant forall k :: 0 <= k < i ==> a[k] == BLANK_NOTE
    {
      a[i] := BLANK_NOTE;
      i := i + 1;
    }
    assert a[..] == Blanks(a.Length);
  }

  /** The single memcpy of a snapshot that spans all 64 channels: the rows that exist,
      from row y on, cell for cell. */
  method CopyWhole(a: array<Note>, pattern: seq<Note>, totalRows: int, y: int, height: int)
    requires SnapFits(totalRows, 0, y, MAX_CHANNELS, height) && |pattern| == MAX_CHANNELS * totalRows
    requires a.Length == MAX_CHANNELS * height
    modifies a
    ensures var n := MAX_CHANNELS * Min(height, totalRows);
      n <= a.Length && a[..n] == pattern[MAX_CHANNELS * y .. MAX_CHANNELS * y + n] && a[n..] == old(a[n..])
  {
    var h := height;
    if h > totalRows {
      h := totalRows;
    }
    var i := 0;
    while i < MAX_CHANNELS * h
      invariant 0 <= i <= MAX_CHANNELS * h
      invariant forall k :: 0 <= k < i ==> a[k] == pattern[MAX_CHANNELS * y + k]
      invariant forall k :: i <= k < a.Length ==> a[k] == old(a[k])
    {
      a[i] := pattern[MAX_CHANNELS * y + i];
      i := i + 1;
    }
    assert a[..i] == pattern[MAX_CHANNELS * y .. MAX_CHANNELS * y + i];
    assert a[i..] == old(a[i..]);
  }

  /** The row loop of snap_copy: while the row is below both the snapshot's and the
      pattern's row count, one memcpy of `width` cells from row row + y, channel x, to
      cell `base`, the width cells of each earlier row further on. */
  method CopyRows(a: array<Note>, pattern: seq<Note>, totalRows: int, x: int, y: int, width: int, height: int)
    requires SnapFits(totalRows, x, y, width, height) && |pattern| == MAX_CHANNELS * totalRows
    requires a.Length == Area(width, height)
    modifies a
    ensures var m := Min(height, totalRows);
      Area(width, m) <= a.Length
      && a[..Area(width, m)] == Flatten(SnapRowList(pattern, totalRows, x, y, width, height)[..m])
      && a[Area(width, m)..] == old(a[Area(width, m)..])
  {
    ghost var rows := SnapRowList(pattern, totalRows, x, y, width, height);
    ghost var a0 := a[..];
    var row := 0;
    var base := 0;
    while row < height && row < totalRows
      invariant 0 <= row <= Min(height, totalRows) && base == Area(width, row)
      invariant CopyState(a[..], a0, rows, row, base)
    {
      CopyRowOf(a, pattern, totalRows, x, y, width, height, row, base, rows, a0);
      base := base + width;
      row := row + 1;
    }
  }

  /** Part way through the row loop: the first `row` rows are in place in the first `base`
      cells, and the cells after them are as they were. */
  ghost predicate CopyState(cur: seq<Note>, a0: seq<Note>, rows: seq<seq<Note>>, row: nat, base: nat) {
    base <= |cur| == |a0| && row <= |rows| && cur[..base] == Flatten(rows[..row]) && cur[base..] == a0[base..]
  }

  /** One pass of the row loop: row `row` goes to cell `base`, after the rows before it. */
  method CopyRowOf(a: array<Note>, pattern: seq<Note>, totalRows: int, x: int, y: int, width: int, height: int,
                   row: nat, base: nat, ghost rows: seq<seq<Note>>, ghost a0: seq<Note>)
    requires SnapFits(totalRows, x, y, width, height) && |pattern| == MAX_CHANNELS * totalRows
    requires rows == SnapRowList(pattern, totalRows, x, y, width, height)
    requires row < Min(height, totalRows) && base == Area(width, row)
    requires a.Length == Area(width, height) && CopyState(a[..], a0, rows, row, base)
    modifies a
    ensures base + width == Area(width, row + 1) <= a.Length
    ensures CopyState(a[..], a0, rows, row + 1, base + width)
  {
    AreaMonotone(width, row + 1, height);
    var src := MAX_CHANNELS * (row + y) + x;
    NextRow(pattern, totalRows, x, y, width, height, row, rows, src);
    ghost var before := a[..];
    CopyRow(a, pattern, base, src, width);
    assert a[base + width..] == before[base + width..];
    assert before[base + width..] == a0[base + width..];
  }

  /** Row `row` that the row loop copies extends the rows before it. */
  lemma NextRow(pattern: seq<Note>, totalRows: int, x: int, y: int, width: int, height: int, row: nat,
                rows: seq<seq<Note>>, src: int)
    requires SnapFits(totalRows, x, y, width, height) && |pattern| == MAX_CHANNELS * totalRows
    requires row < Min(height, totalRows)
    requires rows == SnapRowList(pattern, totalRows, x, y, width, height) && src == MAX_CHANNELS * (row + y) + x
    ensures 0 <= src && src + width <= |pattern|
    ensures Flatten(rows[..row + 1]) == Flatten(rows[..row]) + pattern[src .. src + width]
  {
    RowInPattern(totalRows, x, y, width, height, row);
    FlattenStep(rows, row);
    SnapRowListAt(pattern, totalRows, x, y, width, height, row);
  }

  /** A row the rectangle copies lies inside the pattern. */
  lemma RowInPattern(totalRows: int, x: int, y: int, width: int, height: int, row: nat)
    requires SnapFits(totalRows, x, y, width, height) && row < Min(height, totalRows)
    ensures 0 <= MAX_CHANNELS * (row + y) + x
    ensures MAX_CHANNELS * (row + y) + x + width <= MAX_CHANNELS * totalRows
  {
    var k := totalRows - (row + y + 1);
    assert k >= 0;
    assert MAX_CHANNELS * totalRows == MAX_CHANNELS * (row + y) + MAX_CHANNELS + MAX_CHANNELS * k;
  }

  /** One memcpy of the row loop: `width` cells from `src` in the pattern to `base`. */
  method CopyRow(a: array<Note>, pattern: seq<Note>, base: nat, src: nat, width: nat)
    requires base + width <= a.Length && src + width <= |pattern|
    modifies a
    ensures a[..base + width] == old(a[..base]) + pattern[src .. src + width]
    ensures forall k :: base + width <= k < a.Length ==> a[k] == old(a[k])
  {
    var ch := 0;
    while ch < width
      invariant 0 <= ch <= width
      invariant forall k :: 0 <= k < a.Length ==> a[k] == if base <= k < base + ch then pattern[src + k - base] else old(a[k])
    {
      a[base + ch] := pattern[src + ch];
      ch := ch + 1;
    }
    assert a[..base + width] == old(a[..base]) + pattern[src .. src + width];
  }

  // ---------------------------------------------------------------------------
  // pated_history_add2

  /** The top slot already holds a snapshot of this rectangle of this pattern, taken for
      the same description: a grouped change reuses it. */
  predicate RepeatsTop(s: Snap, currentPattern: int, x: int, y: int, width: int, height: int, descr: string) {
    s.patternNo == currentPattern && s.x == x && s.y == y && s.channels == width && s.rows == height
    && s.op == Some(descr)
  }

  /** The undo ring after pated_history_add2: unchanged when the change is grouped with the
      top slot's; otherwise the next slot (mod 10) gets a fresh snapshot of the rectangle,
      labelled with the description and the pattern, and becomes the top. */
  function HistoryAdded(slots: seq<Snap>, top: nat, grouped: bool, descr: string, x: int, y: int, width: int,
                        height: int, currentPattern: int, pattern: seq<Note>, totalRows: int): (r: (seq<Snap>, nat))
    requires |slots| == HISTORY_SLOTS && top < HISTORY_SLOTS
    requires SnapFits(totalRows, x, y, width, height) && |pattern| == MAX_CHANNELS * totalRows
    ensures |r.0| == HISTORY_SLOTS && r.1 < HISTORY_SLOTS
    ensures r.1 == top || r.1 == (top + 1) % HISTORY_SLOTS
    ensures RepeatsTop(r.0[r.1], currentPattern, x, y, width, height, descr)
    ensures forall i :: 0 <= i < HISTORY_SLOTS && i != r.1 ==> r.0[i] == slots[i]
    ensures r.1 == top <==> grouped && RepeatsTop(slots[top], currentPattern, x, y, width, height, descr)
    ensures r.1 == top ==> r.0 == slots
    ensures r.1 != top ==> r.0[r.1].data == SnapCells(pattern, totalRows, x, y, width, height) && r.0[r.1].opAllocated
  {
    if grouped && RepeatsTop(slots[top], currentPattern, x, y, width, height, descr) then (slots, top)
    else
      var j := (top + 1) % HISTORY_SLOTS;
      var s := slots[j].(data := SnapCells(pattern, totalRows, x, y, width, height), channels := width, rows := height,
                         x := x, y := y, op := Some(descr), opAllocated := true, patternNo := currentPattern);
      (slots[j := s], j)
  }

  /** Repeating a change, grouped, right after it was recorded records nothing more. */
  lemma {:induction false} GroupedRepeatIsNoOp(slots: seq<Snap>, top: nat, grouped: bool, descr: string, x: int, y: int,
                                               width: int, height: int, currentPattern: int, pattern: seq<Note>, totalRows: int)
    requires |slots| == HISTORY_SLOTS && top < HISTORY_SLOTS
    requires SnapFits(totalRows, x, y, width, height) && |pattern| == MAX_CHANNELS * totalRows
    ensures var r := HistoryAdded(slots, top, grouped, descr, x, y, width, height, currentPattern, pattern, totalRows);
      HistoryAdded(r.0, r.1, true, descr, x, y, width, height, currentPattern, pattern, totalRows) == r
  {
    var r := HistoryAdded(slots, top, grouped, descr, x, y, width, height, currentPattern, pattern, totalRows);
    assert RepeatsTop(r.0[r.1], currentPattern, x, y, width, height, descr);
  }

  /** The undo ring after the same change has been recorded n times, ungrouped. */
  function AddedTimes(slots: seq<Snap>, top: nat, n: nat, descr: string, x: int, y: int, width: int,
                      height: int, currentPattern: int, pattern: seq<Note>, totalRows: int): (r: (seq<Snap>, nat))
    requires |slots| == HISTORY_SLOTS && top < HISTORY_SLOTS
    requires SnapFits(totalRows, x, y, width, height) && |pattern| == MAX_CHANNELS * totalRows
    ensures |r.0| == HISTORY_SLOTS && r.1 < HISTORY_SLOTS
    decreases n
  {
    if n == 0 then (slots, top)
    else
      var p := AddedTimes(slots, top, n - 1, descr, x, y, width, height, currentPattern, pattern, totalRows);
      HistoryAdded(p.0, p.1, false, descr, x, y, width, height, currentPattern, pattern, totalRows)
  }

  /** Every ungrouped change moves the top of the ring one slot on: after n of them it is
      Advance(top, n), that is (top + n) mod 10, and the slot it names holds the change. */
  lemma {:induction false} UngroupedAddsAdvance(slots: seq<Snap>, top: nat, n: nat, descr: string, x: int, y: int,
                                                width: int, height: int, currentPattern: int, pattern: seq<Note>,
                                                totalRows: int)
    requires |slots| == HISTORY_SLOTS && top < HISTORY_SLOTS
    requires SnapFits(totalRows, x, y, width, height) && |pattern| == MAX_CHANNELS * totalRows
    ensures var r := AddedTimes(slots, top, n, descr, x, y, width, height, currentPattern, pattern, totalRows);
      r.1 == Advance(top, n) == (top + n) % HISTORY_SLOTS
      && (n > 0 ==> r.0[r.1].data == SnapCells(pattern, totalRows, x, y, width, height))
    decreases n
  {
    AdvanceIs(top, n);
    if n > 0 {
      UngroupedAddsAdvance(slots, top, n - 1, descr, x, y, width, height, currentPattern, pattern, totalRows);
    }
  }

  /** Ten ungrouped changes in a row bring the top of the ring back round to where it was. */
  lemma {:induction false} RingWrapsAfterTen(slots: seq<Snap>, top: nat, descr: string, x: int, y: int, width: int,
                                             height: int, currentPattern: int, pattern: seq<Note>, totalRows: int)
    requires |slots| == HISTORY_SLOTS && top < HISTORY_SLOTS
    requires SnapFits(totalRows, x, y, width, height) && |pattern| == MAX_CHANNELS * totalRows
    ensures AddedTimes(slots, top, HISTORY_SLOTS, descr, x, y, width, height, currentPattern, pattern, totalRows).1 == top
  {
    UngroupedAddsAdvance(slots, top, HISTORY_SLOTS, descr, x, y, width, height, currentPattern, pattern, totalRows);
    DivModUnique(top + HISTORY_SLOTS, HISTORY_SLOTS, 1, top);
  }

  /** The top after n ungrouped changes. */
  function Advance(top: nat, n: nat): (r: nat)
    requires top < HISTORY_SLOTS
    ensures r < HISTORY_SLOTS
  {
    if n == 0 then top else (Advance(top, n - 1) + 1) % HISTORY_SLOTS
  }

  lemma {:induction false} AdvanceIs(top: nat, n: nat)
    requires top < HISTORY_SLOTS
    ensures Advance(top, n) == (top + n) % HISTORY_SLOTS
  {
    if n > 0 {
      AdvanceIs(top, n - 1);
      var k := top + n - 1;
      var q, r := k / HISTORY_SLOTS, k % HISTORY_SLOTS;
      if r + 1 < HISTORY_SLOTS {
        DivModUnique(k + 1, HISTORY_SLOTS, q, r + 1);
      } else {
        DivModUnique(k + 1, HISTORY_SLOTS, q + 1, 0);
      }
    }
  }

  /** undo_history and undo_history_top. */
  class UndoHistory {
    var slots: seq<Snap>
    var top: nat

    ghost predicate Valid()
      reads this
    {
      |slots| == HISTORY_SLOTS && top < HISTORY_SLOTS
    }

    /** The ring as the program starts: ten empty slots, the top at slot 0. */
    constructor ()
      ensures Valid() && top == 0 && forall i :: 0 <= i < HISTORY_SLOTS ==> slots[i] == EMPTY_SNAP
    {
      slots := seq(HISTORY_SLOTS, _ => EMPTY_SNAP);
      top := 0;
    }

    /** pated_history_add2 on the current pattern (its cells and row count as parameters). */
    method Add2(grouped: bool, descr: string, x: int, y: int, width: int, height: int,
                currentPattern: int, pattern: seq<Note>, totalRows: int)
      requires Valid() && SnapFits(totalRows, x, y, width, height) && |pattern| == MAX_CHANNELS * totalRows
      modifies this
      ensures Valid()
      ensures (slots, top) == HistoryAdded(old(slots), old(top), grouped, descr, x, y, width, height,
                                           currentPattern, pattern, totalRows)
    {
      var j := top;
      if grouped && RepeatsTop(slots[j], currentPattern, x, y, width, height, descr) {
        // the previous bit of history stands for this change too
      } else {
        j := (top + 1) % HISTORY_SLOTS;
        var s := SnapCopy(slots[j], pattern, totalRows, x, y, width, height);
        s := s.(op := Some(descr), opAllocated := true, patternNo := currentPattern);
        slots := slots[j := s];
        top := j;
      }
    }
  }

  // ---------------------------------------------------------------------------
  // The cursor: set_current_row, set_current_pattern, play_song_from_mark

  /** The block selection; no selection when firstChannel is 0 (channels count from 1). */
  datatype Selection = Selection(firstChannel: int, lastChannel: int, firstRow: int, lastRow: int)

  /** SELECTION_EXISTS. */
  predicate SelectionExists(sel: Selection) {
    sel.firstChannel != 0
  }

  /** The selection after set_current_pattern switched to a pattern of totalRows rows: a
      selection starting below the last row collapses onto it, one ending below it is cut
      there. */
  function ClampedSelection(sel: Selection, totalRows: int): (r: Selection)
    ensures r.firstChannel == sel.firstChannel && r.lastChannel == sel.lastChannel
    ensures SelectionExists(sel) ==> r.firstRow <= totalRows && r.lastRow <= totalRows
    ensures !SelectionExists(sel) || (sel.firstRow <= totalRows && sel.lastRow <= totalRows) ==> r == sel
    ensures sel.firstRow <= sel.lastRow ==> r.firstRow <= r.lastRow
    ensures sel.firstRow > totalRows && SelectionExists(sel) ==> r.firstRow == r.lastRow == totalRows
    ensures sel.firstRow <= totalRows ==> r.firstRow == sel.firstRow
  {
    if !SelectionExists(sel) then sel
    else if sel.firstRow > totalRows then sel.(firstRow := totalRows, lastRow := totalRows)
    else if sel.lastRow > totalRows then sel.(lastRow := totalRows)
    else sel
  }

  /** The digits of a number, as sprintf's %d writes a non-negative one. */
  function DecimalText(n: nat): (r: string)
    ensures 1 <= |r| && forall i :: 0 <= i < |r| ==> '0' <= r[i] <= '9'
    ensures n >= 10 ==> r[0] != '0'
    decreases n
  {
    if n < 10 then [DigitChar(n)] else DecimalText(n / 10) + [DigitChar(n % 10)]
  }

  function DigitChar(d: nat): (c: char)
    requires d < 10
    ensures '0' <= c <= '9' && c as int - '0' as int == d
  {
    ('0' as int + d) as char
  }

  /** The number a string of decimal digits spells. */
  function DecimalValue(s: string): nat
    requires forall i :: 0 <= i < |s| ==> '0' <= s[i] <= '9'
  {
    if |s| == 0 then 0 else DecimalValue(s[..|s| - 1]) * 10 + (s[|s| - 1] as int - '0' as int)
  }

  /** Reading the digits back gives the number: the undo description names the pattern. */
  lemma {:induction false} DecimalRoundTrip(n: nat)
    ensures DecimalValue(DecimalText(n)) == n
  {
    if n >= 10 {
      DecimalRoundTrip(n / 10);
      var s := DecimalText(n);
      assert s[..|s| - 1] == DecimalText(n / 10);
    }
  }

  /** Where play_song_from_mark starts playback. */
  datatype PlayStart = StartAtPattern(pattern: int, row: int) | StartAtOrder(order: int, row: int)

  /** The first order from `from` on, below 255, that plays `pattern`. */
  function FirstOrderFrom(orderlist: seq<byte>, from: nat, pattern: int): (r: Option<nat>)
    requires |orderlist| == MAX_ORDERS
    ensures r.Some? ==> from <= r.value < ORDER_LAST as int && orderlist[r.value] as int == pattern
    ensures r.Some? ==> forall k :: from <= k < r.value ==> orderlist[k] as int != pattern
    ensures r.None? ==> forall k :: from <= k < ORDER_LAST as int ==> orderlist[k] as int != pattern
    decreases ORDER_LAST as int - from
  {
    if from >= ORDER_LAST as int then None
    else if orderlist[from] as int == pattern then Some(from)
    else FirstOrderFrom(orderlist, from + 1, pattern)
  }

  /** play_song_from_mark: the mark when one is set; else the first order holding the
      current pattern from the current order on, then from order 0; else the pattern itself.
      (Orders count to 254: the search stops before 255.) */
  function PlayFrom(markedPattern: int, markedRow: int, orderlist: seq<byte>, currentOrder: nat,
                    currentPattern: int, currentRow: int): (r: PlayStart)
    requires |orderlist| == MAX_ORDERS
    ensures markedPattern != -1 ==> r == StartAtPattern(markedPattern, markedRow)
    ensures markedPattern == -1 && r.StartAtOrder? ==>
      0 <= r.order < ORDER_LAST as int && orderlist[r.order] as int == currentPattern && r.row == currentRow
    ensures markedPattern == -1 && r.StartAtPattern? ==>
      r == StartAtPattern(currentPattern, currentRow)
      && forall k :: 0 <= k < ORDER_LAST as int ==> orderlist[k] as int != currentPattern
  {
    if markedPattern != -1 then StartAtPattern(markedPattern, markedRow)
    else match FirstOrderFrom(orderlist, currentOrder, currentPattern)
      case Some(o) => StartAtOrder(o, currentRow)
      case None =>
        match FirstOrderFrom(orderlist, 0, currentPattern)
        case Some(o) => StartAtOrder(o, currentRow)
        case None => StartAtPattern(currentPattern, currentRow)
  }

  /** With no mark set, playback starts at the first order at or after the current one that
      holds the current pattern, if one does; failing that, at the first one at all. */
  lemma PlayFromPrefersLaterOrder(orderlist: seq<byte>, currentOrder: nat, currentPattern: int, currentRow: int, o: nat)
    requires |orderlist| == MAX_ORDERS
    requires currentOrder <= o < ORDER_LAST as int && orderlist[o] as int == currentPattern
    ensures var r := PlayFrom(-1, 0, orderlist, currentOrder, currentPattern, currentRow);
      r.StartAtOrder? && currentOrder <= r.order <= o
  {
  }

  /** The order search of play_song_from_mark, from `from` up to 254. */
  method SearchOrders(orderlist: seq<byte>, from: nat, pattern: int) returns (r: Option<nat>)
    requires |orderlist| == MAX_ORDERS
    ensures r == FirstOrderFrom(orderlist, from, pattern)
  {
    var newOrder := from;
    while newOrder < ORDER_LAST as int
      invariant from <= newOrder && (from <= ORDER_LAST as int ==> newOrder <= ORDER_LAST as int)
      invariant FirstOrderFrom(orderlist, newOrder, pattern) == FirstOrderFrom(orderlist, from, pattern)
      decreases ORDER_LAST as int - newOrder
    {
      if orderlist[newOrder] as int == pattern {
        return Some(newOrder);
      }
      newOrder := newOrder + 1;
    }
    return None;
  }

  /** The editor state that the cursor operations read and write. */
  class EditorCursor {
    var currentRow: int
    var currentPattern: int
    var currentOrder: nat
    var selection: Selection
    var markedPattern: int
    var markedRow: int
    var fastSave: Snap
    const history: UndoHistory

    ghost predicate Valid()
      reads this, history
    {
      history.Valid() && 0 <= currentPattern <= LAST_EDIT_PATTERN && currentOrder < MAX_ORDERS
    }

    /** The state as the program starts: row and pattern 0, no selection, no mark. */
    constructor ()
      ensures Valid() && fresh(history)
      ensures currentRow == 0 && currentPattern == 0 && currentOrder == 0 && selection == Selection(0, 0, 0, 0)
      ensures markedPattern == -1 && fastSave == FAST_SAVE_START
    {
      currentRow, currentPattern, currentOrder := 0, 0, 0;
      selection := Selection(0, 0, 0, 0);
      markedPattern, markedRow := -1, 0;
      fastSave := FAST_SAVE_START;
      history := new UndoHistory();
    }

    /** set_current_row, with what song_get_rows_in_pattern reports for the current pattern
        as a parameter. */
    method SetCurrentRow(row: int, lastRow: nat)
      modifies this`currentRow
      ensures currentRow == Clamp(row, 0, lastRow)
    {
      currentRow := Clamp(row, 0, lastRow);
    }

    /** set_current_pattern: clamp the number to 0..199, pull the row and the selection
        under what song_get_rows_in_pattern reports (`lastRows`), record the whole pattern,
        as song_get_pattern sizes it (`rowCounts` rows of `patterns`), in the undo ring as
        "Pattern <n>", and take it as the fast save. The two callees are separate
        parameters: their code is not part of this model. */
    method SetCurrentPattern(n: int, lastRows: seq<int>, rowCounts: seq<int>, patterns: seq<seq<Note>>)
      requires Valid() && |lastRows| == |rowCounts| == |patterns| == LAST_EDIT_PATTERN + 1
      requires forall i :: 0 <= i <= LAST_EDIT_PATTERN ==> 0 <= rowCounts[i] && |patterns[i]| == MAX_CHANNELS * rowCounts[i]
      modifies this`currentPattern, this`currentRow, this`selection, this`fastSave, history
      ensures Valid()
      ensures currentPattern == Clamp(n, 0, LAST_EDIT_PATTERN)
      ensures var last := lastRows[currentPattern];
        currentRow == Min(old(currentRow), last) && selection == ClampedSelection(old(selection), last)
      ensures var total := rowCounts[currentPattern];
        (history.slots, history.top) ==
           HistoryAdded(old(history.slots), old(history.top), false, "Pattern " + DecimalText(currentPattern),
                        0, 0, MAX_CHANNELS, total, currentPattern, patterns[currentPattern], total)
        && fastSave == old(fastSave).(data := patterns[currentPattern], channels := MAX_CHANNELS, rows := total, x := 0, y := 0)
    {
      currentPattern := Clamp(n, 0, LAST_EDIT_PATTERN);
      var last := lastRows[currentPattern];
      if currentRow > last {
        currentRow := last;
      }
      selection := ClampedSelection(selection, last);
      var total := rowCounts[currentPattern];
      var pattern := patterns[currentPattern];
      WholePatternSnap(pattern, total);
      history.Add2(false, "Pattern " + DecimalText(currentPattern), 0, 0, MAX_CHANNELS, total, currentPattern, pattern, total);
      fastSave := SnapCopy(fastSave, pattern, total, 0, 0, MAX_CHANNELS, total);
    }

    /** play_song_from_mark: where playback starts; an order found by the search becomes
        the current order. */
    method PlayFromMark(orderlist: seq<byte>) returns (start: PlayStart)
      requires |orderlist| == MAX_ORDERS
      modifies this`currentOrder
      ensures start == PlayFrom(markedPattern, markedRow, orderlist, old(currentOrder), currentPattern, currentRow)
      ensures currentOrder == if start.StartAtOrder? then start.order else old(currentOrder)
    {
      if markedPattern != -1 {
        return StartAtPattern(markedPattern, markedRow);
      }
      var found := SearchOrders(orderlist, currentOrder, currentPattern);
      if found.None? {
        found := SearchOrders(orderlist, 0, currentPattern);
      }
      if found.Some? {
        currentOrder := found.value;
        return StartAtOrder(found.value, currentRow);
      }
      return StartAtPattern(currentPattern, currentRow);
    }
  }
}
