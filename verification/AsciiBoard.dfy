/**
 The board drawn as text: two passes that have to agree on where a cell is. One walks the
 template, the other the rendered text, byte by byte, past colour codes.
 */
module AsciiBoard {
  import opened Options
  import opened Arithmetic
  import opened Decimals
  import opened Sequences

  /** Bytes are written as the characters of their value. */
  type Text = string

  const ESC: char := '\U{1B}'
  const NEWLINE: char := '\n'

  datatype Segment =
    | StringEntry(value: Text)
    | TerritoryColor(territory: nat)
    | TroopCounter(territory: nat, chars: nat)

  datatype Cursor = Cursor(row: nat, col: nat)

  // ----------------------------------------------------------------------- tokens

  /** Bytes in the UTF-8 sequence `lead` starts. */
  function CodePointBytes(lead: char): (n: nat)
    ensures 1 <= n <= 4
  {
    if lead < '\U{80}' then 1 else if lead < '\U{E0}' then 2 else if lead < '\U{F0}' then 3 else 4
  }

  predicate EndsEscape(b: char) {
    '@' <= b <= '~'
  }

  /** The first byte from `k` on that ends an escape, or the length. */
  function FinalByte(text: Text, k: nat): (end: nat)
    requires k <= |text|
    ensures k <= end <= |text|
    decreases |text| - k
  {
    if k == |text| || EndsEscape(text[k]) then k else FinalByte(text, k + 1)
  }

  predicate StartsEscape(text: Text) {
    |text| >= 2 && text[0] == ESC && text[1] == '['
  }

  /** The length of the first escape, line break or code point. */
  function TokenLength(text: Text): (n: nat)
    requires text != []
    ensures 1 <= n <= |text|
  {
    if StartsEscape(text) then Min(FinalByte(text, 2) + 1, |text|)
    else if text[0] == NEWLINE then 1
    else Min(CodePointBytes(text[0]), |text|)
  }

  /** The first escape is ended, or the first code point has all its bytes. */
  predicate FirstWhole(text: Text)
    requires text != []
  {
    if StartsEscape(text) then FinalByte(text, 2) < |text|
    else text[0] == NEWLINE || CodePointBytes(text[0]) <= |text|
  }

  /** Whole escapes and whole code points. */
  predicate Whole(text: Text)
    decreases |text|
  {
    text == [] || (FirstWhole(text) && Whole(text[TokenLength(text)..]))
  }

  /** The last token is an escape character alone, which a bracket would make an escape. */
  predicate EndsInEscape(text: Text)
    decreases |text|
  {
    text != [] && (text == [ESC] || EndsInEscape(text[TokenLength(text)..]))
  }

  predicate Apart(a: Text, b: Text) {
    EndsInEscape(a) && b != [] ==> b[0] != '['
  }

  function Past(text: Text, at: Cursor): Cursor
    requires text != []
  {
    if StartsEscape(text) then at
    else if text[0] == NEWLINE then Cursor(at.row + 1, 0)
    else Cursor(at.row, at.col + 1)
  }

  /** Where a cursor ends up that walks the text from `at`. */
  function After(text: Text, at: Cursor): Cursor
    decreases |text|
  {
    if text == [] then at else After(text[TokenLength(text)..], Past(text, at))
  }

  /** A visible cell: where it is, and the bytes of its code point. */
  datatype Cell = Cell(at: Cursor, glyph: Text)

  predicate ShowsCell(text: Text)
    requires text != []
  {
    !StartsEscape(text) && text[0] != NEWLINE
  }

  /** The cells of the text, in order. */
  function Shown(text: Text, at: Cursor): seq<Cell>
    decreases |text|
  {
    if text == [] then []
    else
      var n := TokenLength(text);
      (if ShowsCell(text) then [Cell(at, text[..n])] else []) + Shown(text[n..], Past(text, at))
  }

  // ---------------------------------------------------------------- joining texts

  lemma {:induction false} FinalByteJoin(a: Text, b: Text, k: nat)
    requires k <= |a| && FinalByte(a, k) < |a|
    ensures FinalByte(a + b, k) == FinalByte(a, k)
    decreases |a| - k
  {
    if !EndsEscape(a[k]) {
      FinalByteJoin(a, b, k + 1);
    }
  }

  lemma TokenJoin(a: Text, b: Text)
    requires a != [] && FirstWhole(a) && Apart(a, b)
    ensures FirstWhole(a + b) && TokenLength(a + b) == TokenLength(a)
    ensures StartsEscape(a + b) == StartsEscape(a) && ShowsCell(a + b) == ShowsCell(a)
    ensures forall at :: Past(a + b, at) == Past(a, at)
    ensures (a + b)[..TokenLength(a)] == a[..TokenLength(a)]
    ensures (a + b)[TokenLength(a)..] == a[TokenLength(a)..] + b
    ensures Apart(a[TokenLength(a)..], b)
  {
    if StartsEscape(a) {
      FinalByteJoin(a, b, 2);
    } else if |a| == 1 && b != [] && a[0] == ESC {
      assert a == [ESC];
      assert (a + b)[1] == b[0];
    }
    SplitJoin(a, b, TokenLength(a));
  }

  /** A whole text keeps its tokens when more text follows. */
  lemma {:induction false} WholeJoin(a: Text, b: Text, at: Cursor)
    requires Whole(a) && Apart(a, b)
    ensures After(a + b, at) == After(b, After(a, at))
    ensures Shown(a + b, at) == Shown(a, at) + Shown(b, After(a, at))
    ensures Whole(a + b) <==> Whole(b)
    ensures EndsInEscape(a + b) <==> if b == [] then EndsInEscape(a) else EndsInEscape(b)
    decreases |a|
  {
    if a == [] {
      assert a + b == b;
    } else {
      TokenJoin(a, b);
      var n, next := TokenLength(a), Past(a, at);
      WholeJoin(a[n..], b, next);
      var first := if ShowsCell(a) then [Cell(at, a[..n])] else [];
      assert Shown(a + b, at) == first + Shown(a[n..] + b, next);
      JoinAll(first, Shown(a[n..], next), Shown(b, After(a, at)));
    }
  }

  predicate Before(a: Cursor, b: Cursor) {
    a.row < b.row || (a.row == b.row && a.col < b.col)
  }

  predicate AtOrBefore(a: Cursor, b: Cursor) {
    a == b || Before(a, b)
  }

  predicate AllFrom(cells: seq<Cell>, at: Cursor) {
    forall i :: 0 <= i < |cells| ==> AtOrBefore(at, cells[i].at)
  }

  predicate InReadingOrder(cells: seq<Cell>) {
    forall i, j :: 0 <= i < j < |cells| ==> Before(cells[i].at, cells[j].at)
  }

  lemma OneCellMore(cells: seq<Cell>, first: Cell, next: Cursor)
    requires AllFrom(cells, next) && InReadingOrder(cells) && Before(first.at, next)
    ensures AllFrom([first] + cells, first.at) && InReadingOrder([first] + cells)
  {
  }

  lemma FromEarlier(cells: seq<Cell>, at: Cursor, next: Cursor)
    requires AllFrom(cells, next) && AtOrBefore(at, next)
    ensures AllFrom(cells, at)
  {
    forall i | 0 <= i < |cells|
      ensures AtOrBefore(at, cells[i].at)
    {
      assert AtOrBefore(next, cells[i].at);
    }
  }

  /** No place on the screen is shown twice: cells come in reading order. */
  lemma {:induction false} CellsInReadingOrder(text: Text, at: Cursor)
    ensures AllFrom(Shown(text, at), at) && InReadingOrder(Shown(text, at))
    decreases |text|
  {
    if text != [] {
      var n, next := TokenLength(text), Past(text, at);
      CellsInReadingOrder(text[n..], next);
      if ShowsCell(text) {
        OneCellMore(Shown(text[n..], next), Cell(at, text[..n]), next);
      } else {
        FromEarlier(Shown(text[n..], next), at, next);
        assert Shown(text, at) == Shown(text[n..], next);
      }
    }
  }

  // -------------------------------------------------------------------- rendering

  /** A count as it is printed, with a sign if it is negative. */
  function Printed(count: int): (s: Text)
    ensures |s| > 0 && Numeric(s)
  {
    if count >= 0 then Decimal(count) else "-" + Decimal(-count)
  }

  /** One byte that shows as one cell. */
  predicate Plain(b: char) {
    ' ' <= b <= '~'
  }

  predicate AllPlain(text: Text) {
    forall i :: 0 <= i < |text| ==> Plain(text[i])
  }

  /** The bytes of a printed number. */
  predicate Numeric(text: Text) {
    forall i :: 0 <= i < |text| ==> text[i] == '-' || IsDigit(text[i])
  }

  function Padded(s: Text, chars: nat): (p: Text)
    ensures |p| == if |s| < chars then chars else |s|
    decreases chars - |s|
  {
    if |s| < chars then Padded("0" + s, chars) else s
  }

  /** The last `chars` digits, filled up with zeros. */
  function CounterText(count: int, chars: nat): (s: Text)
    ensures |s| == chars
  {
    var p := Padded(Printed(count), chars);
    p[|p| - chars..]
  }

  function ColorText(color: nat): Text
    requires color < 16
  {
    if color >= 8 then [ESC, '[', '1', '0', Digit(color - 8), 'm']
    else [ESC, '[', '4', Digit(color), 'm']
  }

  /** The background codes of the terminal: 40 to 47 for the dark colours, 100 to 107 for the bright ones. */
  lemma ColorIsCode(color: nat)
    requires color < 16
    ensures ColorText(color) == [ESC, '['] + Decimal(if color < 8 then 40 + color else 92 + color) + "m"
  {
    if color < 8 {
      assert Decimal(40 + color) == Decimal(4) + [Digit(color)] == ['4', Digit(color)];
    } else {
      assert Decimal(92 + color) == Decimal(10) + [Digit(color - 8)];
      assert Decimal(10) == Decimal(1) + [Digit(0)] == ['1', '0'];
    }
  }

  lemma {:induction false} PaddedInFront(s: Text, chars: nat, j: nat)
    requires j < |Padded(s, chars)|
    ensures var p := Padded(s, chars);
      p[|p| - 1 - j] == if j < |s| then s[|s| - 1 - j] else '0'
    decreases chars - |s|
  {
    if |s| < chars {
      PaddedInFront("0" + s, chars, j);
    }
  }

  /** A counter shows the last digits of its count, the ones in its last cell. */
  lemma CounterDigits(count: nat, chars: nat, j: nat)
    requires j < chars
    ensures CounterText(count, chars)[chars - 1 - j] == Digit(WithoutLast(count, j) % 10)
  {
    CutInFront(Decimal(count), chars, j);
    DigitOrZero(count, j);
  }

  lemma CutInFront(s: Text, chars: nat, j: nat)
    requires j < chars
    ensures var p := Padded(s, chars);
      p[|p| - chars..][chars - 1 - j] == if j < |s| then s[|s| - 1 - j] else '0'
  {
    PaddedInFront(s, chars, j);
    LastPart(Padded(s, chars), chars, j);
  }

  lemma DigitOrZero(count: nat, j: nat)
    ensures var s := Decimal(count);
      (if j < |s| then s[|s| - 1 - j] else '0') == Digit(WithoutLast(count, j) % 10)
  {
    DigitsInOrder(count, j);
    DigitZero();
  }

  lemma DigitZero()
    ensures Digit(0) == '0'
  {
  }

  lemma LastPart(p: Text, chars: nat, j: nat)
    requires j < chars <= |p|
    ensures p[|p| - chars..][chars - 1 - j] == p[|p| - 1 - j]
  {
  }

  /** Colours are ANSI digits, and the segment's territory has a colour or a count. */
  predicate DrawableSegment(segment: Segment, colors: seq<nat>, counts: seq<int>) {
    match segment
    case StringEntry(_) => true
    case TerritoryColor(t) => t < |colors| && colors[t] < 16
    case TroopCounter(t, chars) => t < |counts| && t <= 42 && chars < 0x100
  }

  predicate Drawable(segments: seq<Segment>, colors: seq<nat>, counts: seq<int>) {
    forall i :: 0 <= i < |segments| ==> DrawableSegment(segments[i], colors, counts)
  }

  function SegmentText(segment: Segment, colors: seq<nat>, counts: seq<int>): Text
    requires DrawableSegment(segment, colors, counts)
  {
    match segment
    case StringEntry(value) => value
    case TerritoryColor(t) => ColorText(colors[t])
    case TroopCounter(t, chars) => CounterText(counts[t], chars)
  }

  function Rendered(segments: seq<Segment>, colors: seq<nat>, counts: seq<int>): Text
    requires Drawable(segments, colors, counts)
  {
    if segments == [] then []
    else
      var n := |segments| - 1;
      Rendered(segments[..n], colors, counts) + SegmentText(segments[n], colors, counts)
  }

  method AppendCounter(count: int, chars: nat, text: Text) returns (result: Text)
    ensures result == text + CounterText(count, chars)
  {
    var s := Printed(count);
    while |s| < chars
      invariant Padded(s, chars) == Padded(Printed(count), chars)
    {
      s := "0" + s;
    }
    if |s| > chars {
      s := s[|s| - chars..];
    }
    result := text + s;
  }

  method AppendColor(color: nat, text: Text) returns (result: Text)
    requires color < 16
    ensures result == text + ColorText(color)
  {
    if color >= 8 {
      result := text + [ESC, '[', '1', '0'];
      result := result + [Digit(color - 8)];
    } else {
      result := text + [ESC, '[', '4'];
      result := result + [Digit(color)];
    }
    result := result + "m";
  }

  method RenderAsciiBoard(segments: seq<Segment>, colors: seq<nat>, counts: seq<int>) returns (result: Text)
    requires Drawable(segments, colors, counts)
    ensures result == Rendered(segments, colors, counts)
  {
    result := [];
    for i := 0 to |segments|
      invariant result == Rendered(segments[..i], colors, counts)
    {
      assert segments[..i + 1][..i] == segments[..i];
      assert DrawableSegment(segments[i], colors, counts);
      match segments[i]
      case StringEntry(value) => result := result + value;
      case TerritoryColor(t) => result := AppendColor(colors[t], result);
      case TroopCounter(t, chars) => result := AppendCounter(counts[t], chars, result);
    }
    assert segments[..|segments|] == segments;
  }

  // ------------------------------------------------------------- counter positions

  datatype CellPos = CellPos(row: int, col: int, width: int)

  /** Past an escape that starts at `i`, or `i` if none does. */
  method SkipEscape(text: Text, i: nat) returns (past: nat)
    requires i < |text|
    ensures past == if StartsEscape(text[i..]) then i + TokenLength(text[i..]) else i
  {
    if text[i] != ESC || i + 1 >= |text| || text[i + 1] != '[' {
      return i;
    }
    var end := i + 2;
    while end < |text| && !EndsEscape(text[end])
      invariant i + 2 <= end <= |text|
      invariant FinalByte(text[i..], 2) == FinalByte(text[i..], end - i)
    {
      end := end + 1;
    }
    past := Min(end + 1, |text|);
  }

  /** What a segment's cells do to the cursor of the template. */
  function SegmentAfter(segment: Segment, at: Cursor): Cursor {
    match segment
    case StringEntry(value) => After(value, at)
    case TerritoryColor(_) => at
    case TroopCounter(_, chars) => Cursor(at.row, at.col + chars)
  }

  function TemplateAfter(segments: seq<Segment>): Cursor {
    if segments == [] then Cursor(0, 0)
    else SegmentAfter(segments[|segments| - 1], TemplateAfter(segments[..|segments| - 1]))
  }

  predicate IsCounter(segment: Segment, id: nat) {
    segment.TroopCounter? && segment.territory == id
  }

  /** The counter at `k` is the last one of its territory. */
  predicate LastCounter(segments: seq<Segment>, k: nat)
    requires k < |segments|
  {
    && segments[k].TroopCounter?
    && forall j :: k < j < |segments| ==> !IsCounter(segments[j], segments[k].territory)
  }

  /** A walk that stands at byte `i` with its cursor at `at` will end at `goal`. */
  predicate Walks(text: Text, i: nat, at: Cursor, goal: Cursor) {
    After(text[Min(i, |text|)..], at) == goal
  }

  lemma WalkToken(text: Text, i: nat, at: Cursor, goal: Cursor, rest: Text, n: nat)
    requires i < |text| && rest == text[i..] && n == TokenLength(rest) && Walks(text, i, at, goal)
    ensures Walks(text, i + n, Past(rest, at), goal)
  {
    assert rest[n..] == text[i + n..];
  }

  lemma WalkTruncated(text: Text, i: nat, next: nat, at: Cursor, goal: Cursor)
    requires Walks(text, i, at, goal) && i == Min(next, |text|)
    ensures Walks(text, next, at, goal)
  {
  }

  lemma WalkCell(text: Text, i: nat, rest: Text, n: nat)
    requires i < |text| && rest == text[i..] && n == TokenLength(rest) && ShowsCell(rest)
    ensures i + n == Min(i + CodePointBytes(text[i]), |text|)
  {
  }

  /** One token walked past. */
  lemma WalkStep(text: Text, i: nat, at: Cursor, goal: Cursor, rest: Text)
    requires i < |text| && rest == text[i..] && Walks(text, i, at, goal)
    ensures StartsEscape(rest) ==> Walks(text, i + TokenLength(rest), at, goal)
    ensures !StartsEscape(rest) && text[i] == NEWLINE ==> Walks(text, i + 1, Cursor(at.row + 1, 0), goal)
    ensures ShowsCell(rest) ==> Walks(text, i + CodePointBytes(text[i]), Cursor(at.row, at.col + 1), goal)
  {
    var n, past := TokenLength(rest), Past(rest, at);
    WalkToken(text, i, at, goal, rest, n);
    if ShowsCell(rest) {
      WalkCell(text, i, rest, n);
      WalkTruncated(text, i + n, i + CodePointBytes(text[i]), past, goal);
    }
  }

  lemma WalkEnds(text: Text, i: nat, at: Cursor, goal: Cursor)
    requires i >= |text| && Walks(text, i, at, goal)
    ensures at == goal
  {
    assert text[Min(i, |text|)..] == [];
  }

  method WalkText(text: Text, at: Cursor) returns (row: nat, col: nat)
    ensures Cursor(row, col) == After(text, at)
  {
    ghost var goal := After(text, at);
    row, col := at.row, at.col;
    var i: nat := 0;
    assert text[0..] == text;
    while i < |text|
      invariant Walks(text, i, Cursor(row, col), goal)
    {
      ghost var rest := text[i..];
      WalkStep(text, i, Cursor(row, col), goal, rest);
      var past := SkipEscape(text, i);
      if past != i {
        i := past;
      } else if text[i] == NEWLINE {
        row := row + 1;
        col := 0;
        i := i + 1;
      } else {
        col := col + 1;
        i := i + CodePointBytes(text[i]);
      }
    }
    WalkEnds(text, i, Cursor(row, col), goal);
  }

  predicate CountersInRange(segments: seq<Segment>) {
    forall k :: 0 <= k < |segments| && segments[k].TroopCounter? ==> segments[k].territory <= 42
  }

  /** The positions, segment by segment: a later counter of the same territory wins. */
  function Positions(segments: seq<Segment>): (positions: seq<CellPos>)
    requires CountersInRange(segments)
    ensures |positions| == 43
  {
    if segments == [] then seq(43, id => CellPos(-1, -1, 0))
    else
      var n := |segments| - 1;
      var before := Positions(segments[..n]);
      if segments[n].TroopCounter? then
        var at := TemplateAfter(segments[..n]);
        before[segments[n].territory := CellPos(at.row, at.col, segments[n].chars)]
      else before
  }

  /** Where the counter at `k` stands, and how wide it is. */
  function CounterAt(segments: seq<Segment>, k: nat): CellPos
    requires k < |segments| && segments[k].TroopCounter?
  {
    var at := TemplateAfter(segments[..k]);
    CellPos(at.row, at.col, segments[k].chars)
  }

  predicate NotCounted(segments: seq<Segment>, id: nat) {
    forall k :: 0 <= k < |segments| ==> !IsCounter(segments[k], id)
  }

  lemma {:induction false} PositionOfLast(segments: seq<Segment>, k: nat)
    requires CountersInRange(segments) && k < |segments| && LastCounter(segments, k)
    ensures Positions(segments)[segments[k].territory] == CounterAt(segments, k)
  {
    var n := |segments| - 1;
    if k < n {
      var front := segments[..n];
      assert front[..k] == segments[..k];
      PositionOfLast(front, k);
      assert !IsCounter(segments[n], segments[k].territory);
    }
  }

  lemma {:induction false} PositionOfNone(segments: seq<Segment>, id: nat)
    requires CountersInRange(segments) && id < 43 && NotCounted(segments, id)
    ensures Positions(segments)[id] == CellPos(-1, -1, 0)
  {
    if segments != [] {
      var n := |segments| - 1;
      PositionOfNone(segments[..n], id);
      assert !IsCounter(segments[n], id);
    }
  }

  /** Each territory is where its last counter stands; those without one keep -1. */
  lemma PositionsOfLast(segments: seq<Segment>)
    requires CountersInRange(segments)
    ensures forall k :: 0 <= k < |segments| && LastCounter(segments, k) ==>
      Positions(segments)[segments[k].territory] == CounterAt(segments, k)
    ensures forall id :: 0 <= id < 43 && NotCounted(segments, id) ==> Positions(segments)[id] == CellPos(-1, -1, 0)
  {
    forall k | 0 <= k < |segments| && LastCounter(segments, k)
      ensures Positions(segments)[segments[k].territory] == CounterAt(segments, k)
    {
      PositionOfLast(segments, k);
    }
    forall id | 0 <= id < 43 && NotCounted(segments, id)
      ensures Positions(segments)[id] == CellPos(-1, -1, 0)
    {
      PositionOfNone(segments, id);
    }
  }

  /** Where the template's last counter of each territory stands, and how wide it is. */
  method CounterPositions(segments: seq<Segment>) returns (positions: seq<CellPos>)
    requires CountersInRange(segments)
    ensures |positions| == 43
    ensures forall k :: 0 <= k < |segments| && LastCounter(segments, k) ==>
              positions[segments[k].territory] == CounterAt(segments, k)
    ensures forall id :: 0 <= id < 43 && NotCounted(segments, id) ==> positions[id] == CellPos(-1, -1, 0)
  {
    positions := seq(43, id => CellPos(-1, -1, 0));
    var row: nat, col: nat := 0, 0;
    for s := 0 to |segments|
      invariant positions == Positions(segments[..s]) && Cursor(row, col) == TemplateAfter(segments[..s])
    {
      assert segments[..s + 1][..s] == segments[..s];
      match segments[s]
      case StringEntry(value) => row, col := WalkText(value, Cursor(row, col));
      case TerritoryColor(_) =>
      case TroopCounter(t, chars) =>
        positions := positions[t := CellPos(row, col, chars)];
        col := col + chars;
    }
    assert segments[..|segments|] == segments;
    PositionsOfLast(segments);
  }

  // ---------------------------------------------------------- the two passes agree

  lemma PlainToken(text: Text, at: Cursor)
    requires text != [] && Plain(text[0])
    ensures FirstWhole(text) && TokenLength(text) == 1 && ShowsCell(text) && Past(text, at) == Cursor(at.row, at.col + 1)
    ensures text[..1] == [text[0]]
  {
  }

  lemma {:induction false} PlainTextWalks(text: Text, at: Cursor)
    requires AllPlain(text)
    ensures Whole(text) && !EndsInEscape(text) && After(text, at) == Cursor(at.row, at.col + |text|)
    decreases |text|
  {
    if text != [] {
      PlainToken(text, at);
      PlainTextWalks(text[1..], Cursor(at.row, at.col + 1));
    }
  }

  /** The cells of plain bytes, side by side. */
  function PlainCells(text: Text, at: Cursor): (cells: seq<Cell>)
    ensures |cells| == |text| && forall j :: 0 <= j < |text| ==> cells[j] == Cell(Cursor(at.row, at.col + j), [text[j]])
  {
    seq(|text|, j requires 0 <= j < |text| => Cell(Cursor(at.row, at.col + j), [text[j]]))
  }

  lemma PlainCellsStep(text: Text, at: Cursor, next: Cursor)
    requires text != [] && next == Cursor(at.row, at.col + 1)
    ensures PlainCells(text, at) == [Cell(at, [text[0]])] + PlainCells(text[1..], next)
  {
  }

  /** A text of plain bytes is as many cells as bytes. */
  lemma {:induction false} PlainText(text: Text, at: Cursor)
    requires AllPlain(text)
    ensures Whole(text) && !EndsInEscape(text) && After(text, at) == Cursor(at.row, at.col + |text|)
    ensures Shown(text, at) == PlainCells(text, at)
    decreases |text|
  {
    PlainTextWalks(text, at);
    if text != [] {
      PlainToken(text, at);
      var next := Cursor(at.row, at.col + 1);
      PlainText(text[1..], next);
      PlainCellsStep(text, at, next);
    }
  }

  lemma {:induction false} PaddedIsNumeric(s: Text, chars: nat)
    requires Numeric(s)
    ensures Numeric(Padded(s, chars))
    decreases chars - |s|
  {
    if |s| < chars {
      PaddedIsNumeric("0" + s, chars);
    }
  }

  lemma CounterIsNumeric(count: int, chars: nat)
    ensures Numeric(CounterText(count, chars)) && AllPlain(CounterText(count, chars))
  {
    PaddedIsNumeric(Printed(count), chars);
  }

  lemma ColorShowsNothing(color: nat, at: Cursor)
    requires color < 16
    ensures var text := ColorText(color);
      Whole(text) && !EndsInEscape(text) && After(text, at) == at && Shown(text, at) == []
  {
    var text := ColorText(color);
    assert FinalByte(text, |text| - 1) == |text| - 1;
    assert FinalByte(text, |text| - 2) == |text| - 1;
    assert FinalByte(text, 3) == |text| - 1;
    assert FinalByte(text, 2) == |text| - 1;
    assert text[TokenLength(text)..] == [];
  }

  lemma {:induction false} FinalByteBeyond(a: Text, b: Text, k: nat)
    requires k <= |a| && FinalByte(a, k) == |a|
    ensures FinalByte(a + b, k) == |a| + FinalByte(b, 0)
    decreases |a| - k
  {
    if k < |a| {
      FinalByteBeyond(a, b, k + 1);
    } else {
      FinalByteFrom(a, b, 0);
    }
  }

  lemma {:induction false} FinalByteFrom(a: Text, b: Text, k: nat)
    requires k <= |b|
    ensures FinalByte(a + b, |a| + k) == |a| + FinalByte(b, k)
    decreases |b| - k
  {
    if k < |b| && !EndsEscape(b[k]) {
      FinalByteFrom(a, b, k + 1);
    }
  }

  lemma {:induction false} NumericEndsNothing(text: Text, k: nat)
    requires Numeric(text) && k <= |text|
    ensures FinalByte(text, k) == |text|
    decreases |text| - k
  {
    if k < |text| {
      NumericEndsNothing(text, k + 1);
    }
  }

  /** An escape begun swallows what follows, up to a byte that ends it. */
  lemma EscapeSwallows(run: Text, next: Text, at: Cursor)
    requires StartsEscape(run) && FinalByte(run, 2) == |run|
    ensures After(run, at) == at
    ensures After(run + next, at) == After(next[Min(FinalByte(next, 0) + 1, |next|)..], at)
  {
    FinalByteBeyond(run, next, 2);
    var n := TokenLength(run + next);
    var swallowed := Min(FinalByte(next, 0) + 1, |next|);
    assert n == |run| + swallowed && (run + next)[n..] == next[swallowed..];
    assert run[TokenLength(run)..] == [];
  }

  /** A code point begun swallows the bytes it lacks. */
  lemma CodePointSwallows(run: Text, next: Text, at: Cursor) returns (swallowed: nat)
    requires run != [] && !StartsEscape(run) && !FirstWhole(run)
    ensures After(run, at) == Cursor(at.row, at.col + 1)
    ensures 1 <= swallowed <= 3 && swallowed == CodePointBytes(run[0]) - |run|
    ensures After(run + next, at) == After(next[Min(swallowed, |next|)..], After(run, at))
  {
    swallowed := CodePointBytes(run[0]) - |run|;
    var n := TokenLength(run + next);
    assert n == |run| + Min(swallowed, |next|) && (run + next)[n..] == next[Min(swallowed, |next|)..];
    assert run[TokenLength(run)..] == [];
  }

  lemma ColorBytes(color: nat, next: Text)
    requires color < 16 && next == ColorText(color)
    ensures |next| >= 5 && next[0] == ESC && next[1] == '['
    ensures forall i :: 1 <= i < |next| ==> Plain(next[i])
  {
    if color >= 8 {
      assert next == [ESC, '[', '1', '0', Digit(color - 8), 'm'];
    } else {
      assert next == [ESC, '[', '4', Digit(color), 'm'];
    }
  }

  lemma BracketEnds(next: Text)
    requires |next| >= 2 && next[0] == ESC && next[1] == '['
    ensures FinalByte(next, 0) == 1
  {
    assert FinalByte(next, 1) == 1;
  }

  lemma BrokenByColor(run: Text, next: Text, at: Cursor, k: nat)
    requires 1 <= k < |next| && forall i :: 1 <= i < |next| ==> Plain(next[i])
    requires After(run + next, at) == After(next[k..], After(run, at))
    ensures After(run + next, at) != After(run, at)
  {
    PlainTextWalks(next[k..], After(run, at));
  }

  lemma BrokenColor(run: Text, color: nat, at: Cursor)
    requires run != [] && !FirstWhole(run) && color < 16
    ensures After(run + ColorText(color), at) != After(run, at)
  {
    var next := ColorText(color);
    ColorBytes(color, next);
    if StartsEscape(run) {
      BracketEnds(next);
      EscapeSwallows(run, next, at);
      BrokenByColor(run, next, at, 2);
    } else {
      var swallowed := CodePointSwallows(run, next, at);
      BrokenByColor(run, next, at, swallowed);
    }
  }

  lemma BrokenCounter(run: Text, counter: Text, at: Cursor)
    requires run != [] && !FirstWhole(run) && Numeric(counter) && counter != []
    ensures After(run + counter, at) != Cursor(After(run, at).row, After(run, at).col + |counter|)
  {
    var swallowed;
    if StartsEscape(run) {
      NumericEndsNothing(counter, 0);
      EscapeSwallows(run, counter, at);
      swallowed := |counter|;
    } else {
      var lacking := CodePointSwallows(run, counter, at);
      swallowed := Min(lacking, |counter|);
    }
    PlainTextWalks(counter[swallowed..], After(run, at));
  }

  /** A colour is not seen after a text if and only if the text has whole tokens. */
  lemma {:induction false} FollowedByColor(run: Text, color: nat, at: Cursor)
    requires color < 16
    ensures After(run + ColorText(color), at) == After(run, at) <==> Whole(run)
    decreases |run|
  {
    if run == [] {
      ColorShowsNothing(color, at);
      assert run + ColorText(color) == ColorText(color);
    } else if FirstWhole(run) {
      TokenJoin(run, ColorText(color));
      FollowedByColor(run[TokenLength(run)..], color, Past(run, at));
    } else {
      BrokenColor(run, color, at);
    }
  }

  /** A counter takes up its bytes after a text if and only if the text has whole tokens. */
  lemma {:induction false} FollowedByCounter(run: Text, counter: Text, at: Cursor)
    requires Numeric(counter) && counter != []
    ensures After(run + counter, at) == Cursor(After(run, at).row, After(run, at).col + |counter|) <==> Whole(run)
    decreases |run|
  {
    if run == [] {
      PlainTextWalks(counter, at);
      assert run + counter == counter;
    } else if FirstWhole(run) {
      TokenJoin(run, counter);
      FollowedByCounter(run[TokenLength(run)..], counter, Past(run, at));
    } else {
      BrokenCounter(run, counter, at);
    }
  }

  /** Where a walk ends that is begun at `at` and goes by `way`. */
  function Moved(at: Cursor, way: Cursor): Cursor {
    if way.row == 0 then Cursor(at.row, at.col + way.col) else Cursor(at.row + way.row, way.col)
  }

  lemma {:induction false} AfterMoves(text: Text, at: Cursor)
    ensures After(text, at) == Moved(at, After(text, Cursor(0, 0)))
    decreases |text|
  {
    if text != [] {
      var rest := text[TokenLength(text)..];
      AfterMoves(rest, Past(text, at));
      AfterMoves(rest, Past(text, Cursor(0, 0)));
    }
  }

  /** Walking `b` after `a` ends where walking them as one text does. */
  predicate JoinsUp(a: Text, b: Text) {
    After(a + b, Cursor(0, 0)) == After(b, After(a, Cursor(0, 0)))
  }

  lemma JoinsUpAnywhere(a: Text, b: Text, at: Cursor)
    ensures JoinsUp(a, b) <==> After(a + b, at) == After(b, After(a, at))
  {
    AfterMoves(a + b, at);
    AfterMoves(a, at);
    AfterMoves(b, After(a, at));
    AfterMoves(b, After(a, Cursor(0, 0)));
  }

  /** A colour, or a counter with a digit to show. */
  predicate Drawn(segment: Segment) {
    segment.TerritoryColor? || (segment.TroopCounter? && segment.chars > 0)
  }

  /** The text since the last colour or digit of a counter. */
  function Pending(segments: seq<Segment>): Text {
    if segments == [] then []
    else
      var n := |segments| - 1;
      match segments[n]
      case StringEntry(value) => Pending(segments[..n]) + value
      case TerritoryColor(_) => []
      case TroopCounter(_, chars) => if chars == 0 then Pending(segments[..n]) else []
  }

  /** A text continues the one before it; a colour, or the digits of a counter, come after whole tokens. */
  predicate Follows(pending: Text, segment: Segment) {
    match segment
    case StringEntry(value) => JoinsUp(pending, value)
    case TerritoryColor(_) => Whole(pending)
    case TroopCounter(_, chars) => chars > 0 ==> Whole(pending)
  }

  predicate FollowsAt(segments: seq<Segment>, k: nat)
    requires k < |segments|
  {
    Follows(Pending(segments[..k]), segments[k])
  }

  predicate Fits(segments: seq<Segment>) {
    forall k :: 0 <= k < |segments| ==> FollowsAt(segments, k)
  }

  /** The cursor on the rendered text stands where the cursor on the template does. */
  predicate Agrees(segments: seq<Segment>, colors: seq<nat>, counts: seq<int>)
    requires Drawable(segments, colors, counts)
  {
    After(Rendered(segments, colors, counts), Cursor(0, 0)) == TemplateAfter(segments)
  }

  /** What `text` after `pending` does to the cursor, compared with what its segment does. */
  lemma FollowsExactly(segment: Segment, colors: seq<nat>, counts: seq<int>, pending: Text, at: Cursor)
    requires DrawableSegment(segment, colors, counts)
    ensures Follows(pending, segment)
       <==> After(pending + SegmentText(segment, colors, counts), at) == SegmentAfter(segment, After(pending, at))
  {
    match segment
    case StringEntry(value) => JoinsUpAnywhere(pending, value, at);
    case TerritoryColor(t) => FollowedByColor(pending, colors[t], at);
    case TroopCounter(t, chars) =>
      CounterIsNumeric(counts[t], chars);
      if chars > 0 {
        FollowedByCounter(pending, CounterText(counts[t], chars), at);
      } else {
        assert pending + CounterText(counts[t], chars) == pending;
      }
  }

  /** What is drawn up to some segment: a text nothing can change any more, and the text still pending. */
  ghost predicate Splits(segments: seq<Segment>, colors: seq<nat>, counts: seq<int>, drawn: Text)
    requires Drawable(segments, colors, counts)
  {
    && Whole(drawn) && !EndsInEscape(drawn) && Rendered(segments, colors, counts) == drawn + Pending(segments)
    && After(Pending(segments), After(drawn, Cursor(0, 0))) == TemplateAfter(segments)
  }

  lemma SplitAgrees(segments: seq<Segment>, colors: seq<nat>, counts: seq<int>, drawn: Text)
    requires Drawable(segments, colors, counts) && Splits(segments, colors, counts, drawn)
    ensures Agrees(segments, colors, counts)
  {
    WholeJoin(drawn, Pending(segments), Cursor(0, 0));
  }

  lemma ClosedSegment(segment: Segment, colors: seq<nat>, counts: seq<int>, pending: Text)
    requires DrawableSegment(segment, colors, counts) && Drawn(segment) && Whole(pending)
    ensures var text := pending + SegmentText(segment, colors, counts); Whole(text) && !EndsInEscape(text)
  {
    match segment
    case TerritoryColor(t) =>
      ColorShowsNothing(colors[t], Cursor(0, 0));
      WholeJoin(pending, ColorText(colors[t]), Cursor(0, 0));
    case TroopCounter(t, chars) =>
      CounterIsNumeric(counts[t], chars);
      PlainTextWalks(CounterText(counts[t], chars), Cursor(0, 0));
      WholeJoin(pending, CounterText(counts[t], chars), Cursor(0, 0));
  }

  lemma RenderedMore(front: seq<Segment>, last: Segment, colors: seq<nat>, counts: seq<int>, drawn: Text)
    requires Drawable(front, colors, counts) && DrawableSegment(last, colors, counts)
    requires Splits(front, colors, counts, drawn)
    ensures Drawable(front + [last], colors, counts)
    ensures Rendered(front + [last], colors, counts) == drawn + (Pending(front) + SegmentText(last, colors, counts))
    ensures TemplateAfter(front + [last]) == SegmentAfter(last, TemplateAfter(front))
  {
    assert (front + [last])[..|front|] == front;
    JoinAll(drawn, Pending(front), SegmentText(last, colors, counts));
  }

  /** One more segment: it follows if and only if the cursors agree after it. */
  lemma OneMoreAgrees(front: seq<Segment>, last: Segment, colors: seq<nat>, counts: seq<int>, drawn: Text)
    requires Drawable(front, colors, counts) && DrawableSegment(last, colors, counts)
    requires Splits(front, colors, counts, drawn)
    ensures Drawable(front + [last], colors, counts)
    ensures Follows(Pending(front), last) <==> Agrees(front + [last], colors, counts)
  {
    RenderedMore(front, last, colors, counts, drawn);
    FollowsExactly(last, colors, counts, Pending(front), After(drawn, Cursor(0, 0)));
    WholeJoin(drawn, Pending(front) + SegmentText(last, colors, counts), Cursor(0, 0));
  }

  /** What follows is taken up into what is drawn, or into what is pending. */
  lemma OneMoreSplits(front: seq<Segment>, last: Segment, colors: seq<nat>, counts: seq<int>, drawn: Text)
    returns (more: Text)
    requires Drawable(front, colors, counts) && DrawableSegment(last, colors, counts)
    requires Splits(front, colors, counts, drawn) && Follows(Pending(front), last)
    ensures Drawable(front + [last], colors, counts) && Splits(front + [last], colors, counts, more)
  {
    var all := front + [last];
    assert all[..|front|] == front;
    var pending, text := Pending(front), SegmentText(last, colors, counts);
    RenderedMore(front, last, colors, counts, drawn);
    FollowsExactly(last, colors, counts, pending, After(drawn, Cursor(0, 0)));
    if Drawn(last) {
      more := drawn + (pending + text);
      WholeJoin(drawn, pending + text, Cursor(0, 0));
      ClosedSegment(last, colors, counts, pending);
      assert more + Pending(all) == more;
    } else {
      more := drawn;
      assert pending + text == Pending(all);
    }
  }

  lemma {:induction false} FitsSplits(segments: seq<Segment>, colors: seq<nat>, counts: seq<int>) returns (drawn: Text)
    requires Drawable(segments, colors, counts) && Fits(segments)
    ensures Splits(segments, colors, counts, drawn)
  {
    if segments == [] {
      drawn := [];
    } else {
      var front, last := segments[..|segments| - 1], segments[|segments| - 1];
      FrontFits(segments, front);
      var before := FitsSplits(front, colors, counts);
      assert segments == front + [last] && DrawableSegment(segments[|front|], colors, counts);
      drawn := OneMoreSplits(front, last, colors, counts, before);
    }
  }

  lemma FollowsInFront(segments: seq<Segment>, front: seq<Segment>, k: nat)
    requires front <= segments && k < |front|
    ensures FollowsAt(front, k) <==> FollowsAt(segments, k)
  {
    assert front[..k] == segments[..k];
  }

  lemma FrontFits(segments: seq<Segment>, front: seq<Segment>)
    requires segments != [] && front == segments[..|segments| - 1]
    ensures Fits(segments) <==> Fits(front) && Follows(Pending(front), segments[|segments| - 1])
  {
    assert FollowsAt(segments, |front|) <==> Follows(Pending(front), segments[|front|]);
    forall k | 0 <= k < |front|
      ensures FollowsAt(front, k) <==> FollowsAt(segments, k)
    {
      FollowsInFront(segments, front, k);
    }
  }

  predicate AgreesAt(segments: seq<Segment>, colors: seq<nat>, counts: seq<int>, k: nat)
    requires Drawable(segments, colors, counts) && k <= |segments|
  {
    Agrees(segments[..k], colors, counts)
  }

  /** The cursors agree before every segment and at the end. */
  predicate AgreesThroughout(segments: seq<Segment>, colors: seq<nat>, counts: seq<int>)
    requires Drawable(segments, colors, counts)
  {
    forall k :: 0 <= k <= |segments| ==> AgreesAt(segments, colors, counts, k)
  }

  lemma SameStart(front: seq<Segment>, last: Segment, colors: seq<nat>, counts: seq<int>, k: nat)
    requires Drawable(front, colors, counts) && Drawable(front + [last], colors, counts) && k <= |front|
    ensures AgreesAt(front + [last], colors, counts, k) <==> AgreesAt(front, colors, counts, k)
  {
    assert (front + [last])[..k] == front[..k];
  }

  lemma AgreesInFront(front: seq<Segment>, last: Segment, all: seq<Segment>, colors: seq<nat>, counts: seq<int>)
    requires all == front + [last] && Drawable(front, colors, counts) && Drawable(all, colors, counts)
    requires AgreesThroughout(all, colors, counts)
    ensures AgreesThroughout(front, colors, counts) && Agrees(all, colors, counts)
  {
    forall k | 0 <= k <= |front|
      ensures AgreesAt(front, colors, counts, k)
    {
      assert AgreesAt(all, colors, counts, k);
      SameStart(front, last, colors, counts, k);
    }
    assert AgreesAt(all, colors, counts, |all|) && all[..|all|] == all;
  }

  lemma AgreesOnceMore(front: seq<Segment>, last: Segment, all: seq<Segment>, colors: seq<nat>, counts: seq<int>)
    requires all == front + [last] && Drawable(front, colors, counts) && Drawable(all, colors, counts)
    requires AgreesThroughout(front, colors, counts) && Agrees(all, colors, counts)
    ensures AgreesThroughout(all, colors, counts)
  {
    forall k | 0 <= k <= |all|
      ensures AgreesAt(all, colors, counts, k)
    {
      if k <= |front| {
        assert AgreesAt(front, colors, counts, k);
        SameStart(front, last, colors, counts, k);
      } else {
        assert all[..k] == all;
      }
    }
  }

  lemma OneMoreFits(front: seq<Segment>, last: Segment, colors: seq<nat>, counts: seq<int>)
    requires Drawable(front, colors, counts) && Drawable(front + [last], colors, counts) && Fits(front)
    ensures Agrees(front + [last], colors, counts) <==> Fits(front + [last])
  {
    var drawn := FitsSplits(front, colors, counts);
    assert DrawableSegment((front + [last])[|front|], colors, counts);
    OneMoreAgrees(front, last, colors, counts, drawn);
    FrontFits(front + [last], front);
  }

  /**
   Whatever the colours and counts, the two cursors stand at the same place throughout if and
   only if each text continues the one before it and whole tokens come before each colour and
   each counter.
   */
  lemma {:induction false} PassesAgree(segments: seq<Segment>, colors: seq<nat>, counts: seq<int>)
    requires Drawable(segments, colors, counts)
    ensures AgreesThroughout(segments, colors, counts) <==> Fits(segments)
  {
    if segments == [] {
      assert segments[..0] == segments;
      assert AgreesAt(segments, colors, counts, 0);
    } else {
      var front, last := segments[..|segments| - 1], segments[|segments| - 1];
      assert segments == front + [last];
      PassesAgree(front, colors, counts);
      if AgreesThroughout(segments, colors, counts) {
        AgreesInFront(front, last, segments, colors, counts);
        OneMoreFits(front, last, colors, counts);
      }
      FrontFits(segments, front);
      if Fits(segments) {
        OneMoreFits(front, last, colors, counts);
        AgreesOnceMore(front, last, segments, colors, counts);
      }
    }
  }

  /** No text comes right after another. */
  predicate TextsApart(segments: seq<Segment>) {
    forall k :: 0 <= k < |segments| && segments[k].StringEntry? ==> Pending(segments[..k]) == []
  }

  /** Without texts in pieces, all it takes is whole tokens before what is drawn. */
  lemma TextsApartFit(segments: seq<Segment>)
    requires TextsApart(segments)
    ensures Fits(segments)
       <==> forall k :: 0 <= k < |segments| && Drawn(segments[k]) ==> Whole(Pending(segments[..k]))
  {
    forall k | 0 <= k < |segments|
      ensures FollowsAt(segments, k) <==> (Drawn(segments[k]) ==> Whole(Pending(segments[..k])))
    {
      if segments[k].StringEntry? {
        assert [] + segments[k].value == segments[k].value;
      }
    }
  }

  /** A text that nothing after it can change. */
  predicate Closed(text: Text) {
    Whole(text) && !EndsInEscape(text)
  }

  lemma {:induction false} PendingIsClosed(segments: seq<Segment>)
    requires forall k :: 0 <= k < |segments| && segments[k].StringEntry? ==> Closed(segments[k].value)
    ensures Closed(Pending(segments))
  {
    if segments != [] {
      var n := |segments| - 1;
      PendingIsClosed(segments[..n]);
      if segments[n].StringEntry? {
        WholeJoin(Pending(segments[..n]), segments[n].value, Cursor(0, 0));
      }
    }
  }

  /** Texts that are closed, each for itself, fit anywhere. */
  lemma ClosedTextsFit(segments: seq<Segment>)
    requires forall k :: 0 <= k < |segments| && segments[k].StringEntry? ==> Closed(segments[k].value)
    ensures Fits(segments)
  {
    forall k | 0 <= k < |segments|
      ensures FollowsAt(segments, k)
    {
      PendingIsClosed(segments[..k]);
      if segments[k].StringEntry? {
        WholeJoin(Pending(segments[..k]), segments[k].value, Cursor(0, 0));
      }
    }
  }

  lemma RenderedLast(a: seq<Segment>, last: Segment, colors: seq<nat>, counts: seq<int>)
    requires Drawable(a, colors, counts) && DrawableSegment(last, colors, counts)
    ensures Rendered(a + [last], colors, counts) == Rendered(a, colors, counts) + SegmentText(last, colors, counts)
  {
    assert (a + [last])[..|a|] == a;
  }

  lemma {:induction false} RenderedJoin(a: seq<Segment>, b: seq<Segment>, colors: seq<nat>, counts: seq<int>)
    requires Drawable(a, colors, counts) && Drawable(b, colors, counts)
    ensures Rendered(a + b, colors, counts) == Rendered(a, colors, counts) + Rendered(b, colors, counts)
  {
    if b == [] {
      assert a + b == a;
    } else {
      var n := |b| - 1;
      var text := SegmentText(b[n], colors, counts);
      RenderedJoin(a, b[..n], colors, counts);
      RenderedLast(a + b[..n], b[n], colors, counts);
      LastApart(a, b);
      JoinAll(Rendered(a, colors, counts), Rendered(b[..n], colors, counts), text);
    }
  }

  /** The rendered text is what comes before a segment, the segment, and what comes after it. */
  lemma RenderedAround(segments: seq<Segment>, colors: seq<nat>, counts: seq<int>, k: nat)
    requires Drawable(segments, colors, counts) && k < |segments|
    ensures Rendered(segments, colors, counts)
         == Rendered(segments[..k], colors, counts)
            + (SegmentText(segments[k], colors, counts) + Rendered(segments[k + 1..], colors, counts))
  {
    var upTo := segments[..k + 1];
    assert upTo[..k] == segments[..k] && segments == upTo + segments[k + 1..];
    RenderedJoin(upTo, segments[k + 1..], colors, counts);
    JoinAll(Rendered(segments[..k], colors, counts), SegmentText(segments[k], colors, counts),
            Rendered(segments[k + 1..], colors, counts));
  }

  /** On the screen, the text has the one-byte glyph `b` at a row and column. */
  predicate ShowsByte(text: Text, row: nat, col: nat, b: char) {
    Cell(Cursor(row, col), [b]) in Shown(text, Cursor(0, 0))
  }

  /** A plain middle of three texts is shown byte by byte. */
  lemma MiddleIsShown(text: Text, before: Text, middle: Text, after: Text, at: Cursor, j: nat)
    requires Whole(before) && Apart(before, middle + after)
    requires text == before + (middle + after) && at == After(before, Cursor(0, 0))
    requires AllPlain(middle) && j < |middle|
    ensures ShowsByte(text, at.row, at.col + j, middle[j])
  {
    PlainText(middle, at);
    var cell := Cell(Cursor(at.row, at.col + j), [middle[j]]);
    assert cell == Shown(middle, at)[j];
    WholeJoin(before, middle + after, Cursor(0, 0));
    WholeJoin(middle, after, at);
  }

  /**
   Every troop counter is shown, digit by digit, in exactly the cells computed for it from
   the template.
   */
  lemma CountersStandWhereComputed(segments: seq<Segment>, colors: seq<nat>, counts: seq<int>, k: nat, j: nat,
                                   text: Text, at: Cursor, counter: Text)
    requires Drawable(segments, colors, counts) && Fits(segments) && text == Rendered(segments, colors, counts)
    requires k < |segments| && segments[k].TroopCounter? && at == TemplateAfter(segments[..k])
    requires counter == SegmentText(segments[k], colors, counts) && j < segments[k].chars
    ensures |counter| == segments[k].chars && ShowsByte(text, at.row, at.col + j, counter[j])
  {
    CounterIsNumeric(counts[segments[k].territory], segments[k].chars);
    RenderedAround(segments, colors, counts, k);
    var before := BeforeCounter(segments, colors, counts, k);
    CounterIsApart(before, counter, Rendered(segments[k + 1..], colors, counts));
    MiddleIsShown(text, before, counter, Rendered(segments[k + 1..], colors, counts), at, j);
  }

  /** What is reported as a territory's position is where its last counter is shown. */
  lemma CountersStandAtPositions(segments: seq<Segment>, colors: seq<nat>, counts: seq<int>, k: nat, j: nat,
                                 text: Text, at: Cursor, counter: Text)
    requires Drawable(segments, colors, counts) && Fits(segments) && text == Rendered(segments, colors, counts)
    requires CountersInRange(segments) && k < |segments| && LastCounter(segments, k) && at == TemplateAfter(segments[..k])
    requires counter == SegmentText(segments[k], colors, counts) && j < segments[k].chars
    ensures Positions(segments)[segments[k].territory] == CellPos(at.row, at.col, |counter|)
    ensures j < |counter| && ShowsByte(text, at.row, at.col + j, counter[j])
  {
    PositionOfLast(segments, k);
    CountersStandWhereComputed(segments, colors, counts, k, j, text, at, counter);
  }

  lemma CounterIsApart(before: Text, counter: Text, after: Text)
    requires Numeric(counter) && counter != []
    ensures Apart(before, counter + after)
  {
    assert (counter + after)[0] == counter[0];
  }

  lemma BeforeCounter(segments: seq<Segment>, colors: seq<nat>, counts: seq<int>, k: nat) returns (before: Text)
    requires Drawable(segments, colors, counts) && Fits(segments)
    requires k < |segments| && segments[k].TroopCounter? && segments[k].chars > 0
    ensures before == Rendered(segments[..k], colors, counts) && Whole(before)
    ensures After(before, Cursor(0, 0)) == TemplateAfter(segments[..k])
  {
    var front := segments[..k];
    before := Rendered(front, colors, counts);
    forall i | 0 <= i < k
      ensures FollowsAt(front, i)
    {
      FollowsInFront(segments, front, i);
    }
    var drawn := FitsSplits(front, colors, counts);
    assert FollowsAt(segments, k);
    WholeJoin(drawn, Pending(front), Cursor(0, 0));
  }

  /** A lone escape character is a cell of the template, but joins the text after it on the board. */
  lemma LoneEscapeDisagrees()
    ensures var segments := [StringEntry([ESC]), StringEntry("[m")];
      && Drawable(segments, [], [])
      && TemplateAfter(segments) == Cursor(0, 3)
      && After(Rendered(segments, [], []), Cursor(0, 0)) == Cursor(0, 0)
  {
    var escape, rest: Text := [ESC], "[m";
    TwoTexts(escape, rest);
    LoneEscape(escape, escape + rest);
    PlainText(rest, Cursor(0, 1));
  }

  lemma TwoTexts(a: Text, b: Text)
    ensures var segments := [StringEntry(a), StringEntry(b)];
      && Drawable(segments, [], []) && Rendered(segments, [], []) == a + b
      && TemplateAfter(segments) == After(b, After(a, Cursor(0, 0)))
  {
    var segments := [StringEntry(a), StringEntry(b)];
    var first := [StringEntry(a)];
    assert segments[..1] == first && first[..0] == [];
    assert Drawable(first, [], []) && Rendered(first, [], []) == a;
    assert TemplateAfter(first) == After(a, Cursor(0, 0));
  }

  lemma LoneEscape(escape: Text, text: Text)
    requires escape == [ESC] && text == [ESC, '[', 'm']
    ensures After(escape, Cursor(0, 0)) == Cursor(0, 1) && After(text, Cursor(0, 0)) == Cursor(0, 0)
  {
    assert escape[1..] == [];
    assert FinalByte(text, 2) == 2 && TokenLength(text) == 3 && text[3..] == [];
  }

  // ---------------------------------------------------------------------- overlays

  datatype Overlay = Overlay(row: int, col: int, glyph: Text)

  /** The first overlay of a cell. */
  function Mark(overlay: seq<Overlay>, at: Cursor): (mark: Option<Text>)
    ensures mark.Some? <==> exists o :: o in overlay && o.row == at.row && o.col == at.col
    ensures mark.Some? ==> exists i :: 0 <= i < |overlay| && overlay[i] == Overlay(at.row, at.col, mark.value)
                                       && forall j :: 0 <= j < i ==> overlay[j].row != at.row || overlay[j].col != at.col
  {
    if overlay == [] then None
    else if overlay[0].row == at.row && overlay[0].col == at.col then Some(overlay[0].glyph)
    else Mark(overlay[1..], at)
  }

  const BRIGHT: Text := [ESC, '[', '1', ';', '9', '7', 'm']
  const NORMAL: Text := [ESC, '[', '2', '2', ';', '3', '9', 'm']

  function TokenOverlaid(text: Text, at: Cursor, overlay: seq<Overlay>): Text
    requires text != []
  {
    if ShowsCell(text) && Mark(overlay, at).Some? then BRIGHT + Mark(overlay, at).value + NORMAL
    else text[..TokenLength(text)]
  }

  /** The text with the marked cells replaced, token by token. */
  function Overlaid(text: Text, at: Cursor, overlay: seq<Overlay>): Text
    decreases |text|
  {
    if text == [] then []
    else TokenOverlaid(text, at, overlay) + Overlaid(text[TokenLength(text)..], Past(text, at), overlay)
  }

  /** One token of what is left, overlaid. */
  lemma OverlaidStep(board: Text, i: nat, at: Cursor, overlay: seq<Overlay>)
    requires i < |board|
    ensures var n := TokenLength(board[i..]);
      && i + n <= |board|
      && board[i..][..n] == board[i..i + n]
      && Overlaid(board[i..], at, overlay)
         == TokenOverlaid(board[i..], at, overlay) + Overlaid(board[i + n..], Past(board[i..], at), overlay)
  {
    var n := TokenLength(board[i..]);
    assert board[i..][n..] == board[i + n..];
  }

  /** What is drawn for the token that starts at `i`, and where the next one starts. */
  method OverlayToken(board: Text, i: nat, row: nat, col: nat, overlay: seq<Overlay>)
      returns (drawn: Text, next: nat, nextRow: nat, nextCol: nat)
    requires i < |board|
    ensures drawn == TokenOverlaid(board[i..], Cursor(row, col), overlay)
    ensures i < next && Min(next, |board|) == i + TokenLength(board[i..])
    ensures Cursor(nextRow, nextCol) == Past(board[i..], Cursor(row, col))
  {
    var past := SkipEscape(board, i);
    if past != i {
      return board[i..past], past, row, col;
    }
    if board[i] == NEWLINE {
      return "\n", i + 1, row + 1, 0;
    }
    var bytes := CodePointBytes(board[i]);
    var mark := Mark(overlay, Cursor(row, col));
    if mark.Some? {
      drawn := BRIGHT + mark.value + NORMAL;
    } else {
      drawn := board[i..Min(i + bytes, |board|)];
    }
    next, nextRow, nextCol := i + bytes, row, col + 1;
  }

  method OverlayCells(board: Text, overlay: seq<Overlay>) returns (out: Text)
    ensures out == Overlaid(board, Cursor(0, 0), overlay)
  {
    out := [];
    var row: nat, col: nat := 0, 0;
    var i: nat := 0;
    ghost var whole := Overlaid(board, Cursor(0, 0), overlay);
    ghost var rest := whole;
    assert board[0..] == board;
    while i < |board|
      invariant rest == Overlaid(board[Min(i, |board|)..], Cursor(row, col), overlay)
      invariant out + rest == whole
    {
      OverlaidStep(board, i, Cursor(row, col), overlay);
      var drawn, next, nextRow, nextCol := OverlayToken(board, i, row, col, overlay);
      rest := Overlaid(board[Min(next, |board|)..], Cursor(nextRow, nextCol), overlay);
      JoinAll(out, drawn, rest);
      out := out + drawn;
      i, row, col := next, nextRow, nextCol;
    }
    assert board[Min(i, |board|)..] == [];
  }

  /** One cell wide: a single visible code point, with whole escapes around it if any. */
  predicate OneCell(glyph: Text) {
    Whole(glyph) && glyph != [] && ShowsCell(glyph) && TokenLength(glyph) == |glyph|
  }

  function Remarked(cell: Cell, overlay: seq<Overlay>): Cell {
    var mark := Mark(overlay, cell.at);
    if mark.Some? then cell.(glyph := mark.value) else cell
  }

  /** The cells of a board with the marked ones replaced. */
  function AllRemarked(cells: seq<Cell>, overlay: seq<Overlay>): (r: seq<Cell>)
    ensures |r| == |cells| && forall i :: 0 <= i < |cells| ==> r[i] == Remarked(cells[i], overlay)
  {
    seq(|cells|, i requires 0 <= i < |cells| => Remarked(cells[i], overlay))
  }

  lemma BrightShowsNothing(at: Cursor)
    ensures Whole(BRIGHT) && !EndsInEscape(BRIGHT) && After(BRIGHT, at) == at && Shown(BRIGHT, at) == []
  {
    assert FinalByte(BRIGHT, 6) == 6;
    assert FinalByte(BRIGHT, 5) == 6;
    assert FinalByte(BRIGHT, 4) == 6;
    assert FinalByte(BRIGHT, 3) == 6;
    assert FinalByte(BRIGHT, 2) == 6;
    assert BRIGHT[TokenLength(BRIGHT)..] == [];
  }

  lemma NormalShowsNothing(at: Cursor)
    ensures Whole(NORMAL) && !EndsInEscape(NORMAL) && After(NORMAL, at) == at && Shown(NORMAL, at) == []
  {
    assert FinalByte(NORMAL, 7) == 7;
    assert FinalByte(NORMAL, 6) == 7;
    assert FinalByte(NORMAL, 5) == 7;
    assert FinalByte(NORMAL, 4) == 7;
    assert FinalByte(NORMAL, 3) == 7;
    assert FinalByte(NORMAL, 2) == 7;
    assert NORMAL[TokenLength(NORMAL)..] == [];
  }

  lemma GlyphShowsItself(glyph: Text, at: Cursor)
    requires OneCell(glyph)
    ensures After(glyph, at) == Cursor(at.row, at.col + 1) && Shown(glyph, at) == [Cell(at, glyph)]
  {
    assert glyph[TokenLength(glyph)..] == [];
    assert glyph[..TokenLength(glyph)] == glyph;
  }

  lemma MarkedShowsGlyph(glyph: Text, at: Cursor)
    requires OneCell(glyph)
    ensures var text := BRIGHT + glyph + NORMAL;
      && Whole(text) && !EndsInEscape(text)
      && After(text, at) == Cursor(at.row, at.col + 1) && Shown(text, at) == [Cell(at, glyph)]
  {
    BrightShowsNothing(at);
    GlyphShowsItself(glyph, at);
    NormalShowsNothing(Cursor(at.row, at.col + 1));
    WholeJoin(BRIGHT, glyph, at);
    WholeJoin(BRIGHT + glyph, NORMAL, at);
  }

  lemma TokenIsWhole(text: Text, at: Cursor)
    requires text != [] && FirstWhole(text)
    ensures var token := text[..TokenLength(text)];
      && Whole(token) && After(token, at) == Past(text, at) && (EndsInEscape(token) <==> token == [ESC])
      && Shown(token, at) == if ShowsCell(text) then [Cell(at, token)] else []
  {
    var n := TokenLength(text);
    var token := text[..n];
    if StartsEscape(text) {
      FinalByteCut(text, n, 2);
    }
    assert TokenLength(token) == n && FirstWhole(token);
    assert token[n..] == [] && token[..n] == token;
    assert Whole(token[n..]);
  }

  lemma {:induction false} FinalByteCut(text: Text, n: nat, k: nat)
    requires k < n <= |text| && FinalByte(text, k) == n - 1
    ensures FinalByte(text[..n], k) == n - 1
    decreases n - k
  {
    if !EndsEscape(text[k]) {
      FinalByteCut(text, n, k + 1);
    }
  }

  lemma TokenOverlaidShows(text: Text, at: Cursor, overlay: seq<Overlay>)
    requires text != [] && FirstWhole(text) && forall o :: o in overlay ==> OneCell(o.glyph)
    ensures var piece := TokenOverlaid(text, at, overlay);
      && Whole(piece) && After(piece, at) == Past(text, at)
      && Shown(piece, at)
         == if ShowsCell(text) then [Remarked(Cell(at, text[..TokenLength(text)]), overlay)] else []
  {
    TokenIsWhole(text, at);
    if ShowsCell(text) && Mark(overlay, at).Some? {
      MarkedShowsGlyph(Mark(overlay, at).value, at);
    }
  }

  lemma OverlaidJoin(piece: Text, rest: Text, at: Cursor, next: Cursor, first: seq<Cell>, cells: seq<Cell>,
                     overlay: seq<Overlay>)
    requires Whole(piece) && Apart(piece, rest)
    requires After(piece, at) == next && Shown(piece, at) == AllRemarked(first, overlay)
    requires Whole(rest) && Shown(rest, next) == AllRemarked(cells, overlay)
    ensures Whole(piece + rest) && After(piece + rest, at) == After(rest, next)
    ensures Shown(piece + rest, at) == AllRemarked(first + cells, overlay)
  {
    WholeJoin(piece, rest, at);
    RemarkedJoin(first, cells, overlay);
  }

  lemma OverlaidStart(text: Text, at: Cursor, overlay: seq<Overlay>)
    requires text != []
    ensures var out := Overlaid(text, at, overlay); out != [] && (out[0] == text[0] || out[0] == ESC)
  {
  }

  /** No bracket gets to follow an escape character by the drawing. */
  lemma PieceApart(text: Text, at: Cursor, overlay: seq<Overlay>)
    requires text != [] && FirstWhole(text) && forall o :: o in overlay ==> OneCell(o.glyph)
    ensures Apart(TokenOverlaid(text, at, overlay), Overlaid(text[TokenLength(text)..], Past(text, at), overlay))
  {
    var n := TokenLength(text);
    if ShowsCell(text) && Mark(overlay, at).Some? {
      MarkedShowsGlyph(Mark(overlay, at).value, at);
    } else {
      TokenIsWhole(text, at);
    }
    if n < |text| {
      OverlaidStart(text[n..], Past(text, at), overlay);
    }
  }

  /** An overlay replaces the cells it names and leaves every other cell, and the layout, alone. */
  lemma {:induction false} OverlayChangesOnlyMarked(text: Text, at: Cursor, overlay: seq<Overlay>)
    requires Whole(text) && forall o :: o in overlay ==> OneCell(o.glyph)
    ensures var out := Overlaid(text, at, overlay);
      && Whole(out) && After(out, at) == After(text, at)
      && Shown(out, at) == AllRemarked(Shown(text, at), overlay)
    decreases |text|
  {
    if text != [] {
      var n, past := TokenLength(text), Past(text, at);
      var first := if ShowsCell(text) then [Cell(at, text[..n])] else [];
      TokenOverlaidShows(text, at, overlay);
      OverlayChangesOnlyMarked(text[n..], past, overlay);
      PieceApart(text, at, overlay);
      OverlaidJoin(TokenOverlaid(text, at, overlay), Overlaid(text[n..], past, overlay), at, past,
                   first, Shown(text[n..], past), overlay);
    }
  }

  lemma RemarkedJoin(a: seq<Cell>, b: seq<Cell>, overlay: seq<Overlay>)
    ensures AllRemarked(a + b, overlay) == AllRemarked(a, overlay) + AllRemarked(b, overlay)
  {
  }

  /** With nothing to overlay the text comes back as it was. */
  lemma {:induction false} NoOverlayNoChange(text: Text, at: Cursor)
    ensures Overlaid(text, at, []) == text
    decreases |text|
  {
    if text != [] {
      NoOverlayNoChange(text[TokenLength(text)..], Past(text, at));
    }
  }

  /** A marked cell shows its mark, such as a digit of a counter marked where it was computed to stand. */
  lemma OneMarkShows(text: Text, row: nat, col: nat, b: char, glyph: Text)
    requires Whole(text) && OneCell(glyph) && ShowsByte(text, row, col, b)
    ensures Cell(Cursor(row, col), glyph) in Shown(Overlaid(text, Cursor(0, 0), [Overlay(row, col, glyph)]), Cursor(0, 0))
  {
    var mark := [Overlay(row, col, glyph)];
    OverlayChangesOnlyMarked(text, Cursor(0, 0), mark);
    var cells := Shown(text, Cursor(0, 0));
    var i :| 0 <= i < |cells| && cells[i] == Cell(Cursor(row, col), [b]);
    assert Mark(mark, cells[i].at) == Some(glyph);
    assert AllRemarked(cells, mark)[i] == Cell(Cursor(row, col), glyph);
  }
}
