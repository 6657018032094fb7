/** The scrolling text console, against an unbounded page that never scrolls. */
module Console {
  import opened Bits

  const COLS: nat := 80
  const ROWS: nat := 29
  const DEPTH: nat := 2320

  const SPACE: byte := 0x20
  const BACKSPACE: byte := 0x08
  const NEWLINE: byte := 0x0A
  const FORM_FEED: byte := 0x0C
  const RETURN: byte := 0x0D

  predicate Printable(ch: byte) { 0x20 <= ch <= 0x7E }

  function Blanks(n: nat): (r: seq<byte>)
    ensures |r| == n
  {
    seq(n, _ => SPACE)
  }

  // ------------------------------------------------------------------ the screen

  datatype Screen = Screen(text: seq<byte>, row: nat, col: nat) {
    predicate Valid() { |text| == DEPTH && row < ROWS && col < COLS }

    function Cursor(): nat { row * COLS + col }
  }

  function Cleared(): Screen { Screen(Blanks(DEPTH), 0, 0) }

  function Scrolled(text: seq<byte>): seq<byte>
    requires |text| == DEPTH
  {
    text[COLS..] + Blanks(COLS)
  }

  function LineFeed(s: Screen): (r: Screen)
    requires s.Valid()
    ensures r.Valid()
  {
    if s.row == ROWS - 1 then s.(text := Scrolled(s.text), col := 0) else s.(row := s.row + 1, col := 0)
  }

  function Put(s: Screen, ch: byte): (r: Screen)
    requires s.Valid()
    ensures r.Valid()
  {
    if ch == FORM_FEED then Cleared()
    else if ch == RETURN then s.(col := 0)
    else if ch == NEWLINE then LineFeed(s)
    else if ch == BACKSPACE then
      if s.col == 0 then s else s.(text := s.text[s.Cursor() - 1 := SPACE], col := s.col - 1)
    else if Printable(ch) then
      var t := s.(text := s.text[s.Cursor() := ch]);
      if s.col == COLS - 1 then LineFeed(t) else t.(col := s.col + 1)
    else s
  }

  class TextConsole {
    const textRam: array<byte>
    var cursorRow: nat
    var cursorCol: nat

    ghost predicate Valid()
      reads this, textRam
    {
      textRam.Length == DEPTH && State().Valid()
    }

    ghost function State(): Screen
      reads this, textRam
    {
      Screen(textRam[..], cursorRow, cursorCol)
    }

    constructor ()
      ensures Valid() && State() == Cleared()
    {
      textRam := new byte[DEPTH](_ => SPACE);
      cursorRow, cursorCol := 0, 0;
      new;
      assert textRam[..] == Blanks(DEPTH);
    }

    method ClearTextRam()
      requires textRam.Length == DEPTH
      modifies textRam
      ensures textRam[..] == Blanks(DEPTH)
    {
      for idx := 0 to DEPTH
        invariant forall k :: 0 <= k < idx ==> textRam[k] == SPACE
      {
        textRam[idx] := SPACE;
      }
      assert textRam[..] == Blanks(DEPTH);
    }

    method ScrollTextRam()
      requires textRam.Length == DEPTH
      modifies textRam
      ensures textRam[..] == Scrolled(old(textRam[..]))
    {
      for idx := 0 to COLS * (ROWS - 1)
        invariant forall k :: 0 <= k < idx ==> textRam[k] == old(textRam[k + COLS])
        invariant forall k :: idx <= k < DEPTH ==> textRam[k] == old(textRam[k])
      {
        textRam[idx] := textRam[idx + COLS];
      }
      for idx := COLS * (ROWS - 1) to DEPTH
        invariant forall k :: 0 <= k < COLS * (ROWS - 1) ==> textRam[k] == old(textRam[k + COLS])
        invariant forall k :: COLS * (ROWS - 1) <= k < idx ==> textRam[k] == SPACE
      {
        textRam[idx] := SPACE;
      }
      assert textRam[..] == Scrolled(old(textRam[..]));
    }

    method NextLine()
      requires Valid()
      modifies this, textRam
      ensures Valid() && State() == LineFeed(old(State()))
    {
      cursorCol := 0;
      if cursorRow == ROWS - 1 {
        ScrollTextRam();
      } else {
        cursorRow := cursorRow + 1;
      }
    }

    method PutChar(ch: byte)
      requires Valid()
      modifies this, textRam
      ensures Valid() && State() == Put(old(State()), ch)
    {
      if ch == FORM_FEED {
        ClearTextRam();
        cursorCol, cursorRow := 0, 0;
      } else if ch == RETURN {
        cursorCol := 0;
      } else if ch == NEWLINE {
        NextLine();
      } else if ch == BACKSPACE {
        if cursorCol != 0 {
          textRam[cursorRow * COLS + cursorCol - 1] := SPACE;
          cursorCol := cursorCol - 1;
        }
      } else if 0x20 <= ch <= 0x7E {
        textRam[cursorRow * COLS + cursorCol] := ch;
        if cursorCol == COLS - 1 {
          NextLine();
        } else {
          cursorCol := cursorCol + 1;
        }
      }
    }
  }

  // ------------------------------------------------------------------ the page

  /** The text since the last form feed, unbounded downwards; `cells` is as many whole
      lines as have been reached, and at least one screen. */
  datatype Page = Page(cells: seq<byte>, line: nat, col: nat) {
    predicate Valid() {
      |cells| >= DEPTH && |cells| % COLS == 0 && line < |cells| / COLS && col < COLS
    }

    function Cursor(): nat { line * COLS + col }
  }

  function BlankPage(): Page { Page(Blanks(DEPTH), 0, 0) }

  /** Moving to the next line appends a blank one when the page ends here. */
  function NextLineOf(p: Page): Page {
    if (p.line + 1) * COLS == |p.cells| then Page(p.cells + Blanks(COLS), p.line + 1, 0)
    else p.(line := p.line + 1, col := 0)
  }

  /** Typing a character: form feed starts a new page, return and newline move, backspace blanks
      the cell before the cursor on its line, a printable character fills the cell at it. */
  function Type(p: Page, ch: byte): Page
    requires p.Cursor() < |p.cells|
  {
    if ch == 0x0C then BlankPage()
    else if ch == 0x0D then p.(col := 0)
    else if ch == 0x0A then NextLineOf(p)
    else if ch == 0x08 then
      if p.col == 0 then p else p.(cells := p.cells[p.Cursor() - 1 := 0x20], col := p.col - 1)
    else if 0x20 <= ch < 0x7F then
      var q := p.(cells := p.cells[p.Cursor() := ch]);
      if p.col == 79 then NextLineOf(q) else q.(col := p.col + 1)
    else p
  }

  /** The last 29 lines of the page. */
  function Window(cells: seq<byte>): seq<byte>
    requires |cells| >= DEPTH
  {
    cells[|cells| - DEPTH..]
  }

  /** The screen is the window, with the cursor on the corresponding cell. */
  ghost predicate Shows(s: Screen, p: Page) {
    && s.Valid() && p.Valid() && s.text == Window(p.cells)
    && s.col == p.col && p.line * COLS == s.row * COLS + (|p.cells| - DEPTH)
  }

  lemma LineFeedShows(s: Screen, p: Page)
    requires Shows(s, p)
    ensures Shows(LineFeed(s), NextLineOf(p))
  {
    if s.row == ROWS - 1 {
      var q := NextLineOf(p);
      assert Window(q.cells) == Window(p.cells)[COLS..] + Blanks(COLS);
    }
  }

  /** Overwriting a cell of the window overwrites the same cell of the page. */
  lemma PokeShows(s: Screen, p: Page, back: nat, ch: byte)
    requires Shows(s, p) && back <= s.col
    ensures var at, on := p.Cursor() - back, s.Cursor() - back;
      && 0 <= at < |p.cells| && 0 <= on < DEPTH
      && Shows(s.(text := s.text[on := ch]), p.(cells := p.cells[at := ch]))
  {
    var base := |p.cells| - DEPTH;
    assert p.Cursor() == base + s.Cursor();
    var at, on := p.Cursor() - back, s.Cursor() - back;
    assert p.cells[at := ch][base..] == Window(p.cells)[on := ch];
  }

  lemma PutShows(s: Screen, p: Page, ch: byte)
    requires Shows(s, p)
    ensures p.Cursor() < |p.cells| && Shows(Put(s, ch), Type(p, ch))
  {
    hide LineFeed, NextLineOf, Window, Blanks;
    PokeShows(s, p, 0, ch);
    if ch == BACKSPACE && s.col > 0 {
      PokeShows(s, p, 1, SPACE);
    } else if ch == FORM_FEED {
      BlankShows();
    } else if Printable(ch) && s.col == COLS - 1 {
      LineFeedShows(s.(text := s.text[s.Cursor() := ch]), p.(cells := p.cells[p.Cursor() := ch]));
    } else if ch == NEWLINE {
      LineFeedShows(s, p);
    }
  }

  lemma BlankShows()
    ensures Shows(Cleared(), BlankPage())
  {
  }

  function PutAll(s: Screen, chars: seq<byte>): (r: Screen)
    requires s.Valid()
    ensures r.Valid()
    decreases |chars|
  {
    if chars == [] then s else PutAll(Put(s, chars[0]), chars[1..])
  }

  ghost function TypeAll(p: Page, chars: seq<byte>): Page
    decreases |chars|
  {
    if chars == [] || p.Cursor() >= |p.cells| then p else TypeAll(Type(p, chars[0]), chars[1..])
  }

  lemma {:induction false} RunShows(s: Screen, p: Page, chars: seq<byte>)
    requires Shows(s, p)
    ensures Shows(PutAll(s, chars), TypeAll(p, chars))
    decreases |chars|
  {
    hide Put, Type, Window;
    if chars == [] {
    } else {
      PutShows(s, p, chars[0]);
      RunShows(Put(s, chars[0]), Type(p, chars[0]), chars[1..]);
    }
  }

  /** From reset, after any characters at all, the screen is the 29-line window onto the
      unscrolled page, and the cursor is inside both. */
  lemma ScreenIsWindow(chars: seq<byte>)
    ensures Shows(PutAll(Cleared(), chars), TypeAll(BlankPage(), chars))
  {
    BlankShows();
    RunShows(Cleared(), BlankPage(), chars);
  }
}
