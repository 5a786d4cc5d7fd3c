/** The badge's console grid, and the terminal without a bottom edge that it shows the tail of. */
module Terminal {
  import opened Bytes
  import opened Sequences

  const COLS: nat := 16
  const ROWS: nat := 8
  const TAB: nat := 8
  const BLANK: byte := 0x20

  datatype Esc = Ground | Seen | Csi

  predicate Printable(b: byte) {
    0x20 <= b <= 0x7e
  }

  /** Where the escape stripper is after one byte. */
  function NextEsc(e: Esc, b: byte): Esc {
    match e
    case Ground => if b == 0x1b then Seen else Ground
    case Seen => if b == 0x5b then Csi else Ground
    case Csi => if 0x40 <= b <= 0x7e then Ground else Csi
  }

  // ---- a terminal whose lines never scroll away ----

  /** Lines are as long as what was written on them; the cursor is always on the last. */
  datatype Term = Term(lines: seq<seq<byte>>, col: nat, esc: Esc)

  ghost predicate LineOk(line: seq<byte>) {
    |line| <= COLS && forall j :: 0 <= j < |line| ==> Printable(line[j])
  }

  ghost predicate LinesOk(lines: seq<seq<byte>>) {
    lines != [] && forall i :: 0 <= i < |lines| ==> LineOk(lines[i])
  }

  ghost predicate WellFormed(t: Term) {
    LinesOk(t.lines) && t.col <= |t.lines[|t.lines| - 1]|
  }

  const Fresh: Term := Term([[]], 0, Ground)

  function LastLine(t: Term): seq<byte>
    requires t.lines != []
  {
    t.lines[|t.lines| - 1]
  }

  /** Writes one printable byte; a line already full gives way to a new one first. */
  function Place(t: Term, b: byte): Term
    requires t.lines != [] && t.col <= |LastLine(t)|
  {
    if t.col == COLS then Term(t.lines + [[b]], 1, t.esc)
    else
      var line := LastLine(t);
      var now := if t.col < |line| then line[t.col := b] else line + [b];
      Term(t.lines[|t.lines| - 1 := now], t.col + 1, t.esc)
  }

  function PlaceBlanks(t: Term, n: nat): Term
    requires t.lines != [] && t.col <= |LastLine(t)|
    decreases n
  {
    if n == 0 then t else PlaceBlanks(Place(t, BLANK), n - 1)
  }

  function TabStop(col: nat): nat {
    var stop := (col / TAB + 1) * TAB;
    if stop < COLS then stop else COLS
  }

  function Feed1(t: Term, b: byte): Term
    requires t.lines != [] && t.col <= |LastLine(t)|
  {
    var e := NextEsc(t.esc, b);
    if t.esc != Ground || e != Ground then t.(esc := e)
    else if b == 0x0a then Term(t.lines + [[]], 0, Ground)
    else if b == 0x0d then t.(col := 0)
    else if b == 0x08 then t.(col := if t.col == 0 then 0 else t.col - 1)
    else if b == 0x09 then PlaceBlanks(t, if TabStop(t.col) > t.col then TabStop(t.col) - t.col else 0)
    else if Printable(b) then Place(t, b)
    else t
  }

  lemma {:induction false} PlaceWellFormed(t: Term, b: byte)
    requires WellFormed(t) && Printable(b)
    ensures WellFormed(Place(t, b)) && Place(t, b).esc == t.esc
  {
  }

  lemma {:induction false} BlanksWellFormed(t: Term, n: nat)
    requires WellFormed(t)
    ensures WellFormed(PlaceBlanks(t, n)) && PlaceBlanks(t, n).esc == t.esc
    decreases n
  {
    if n > 0 {
      PlaceWellFormed(t, BLANK);
      BlanksWellFormed(Place(t, BLANK), n - 1);
    }
  }

  lemma {:induction false} Feed1WellFormed(t: Term, b: byte)
    requires WellFormed(t)
    ensures WellFormed(Feed1(t, b)) && Feed1(t, b).esc == NextEsc(t.esc, b)
  {
    if t.esc == Ground && b == 0x09 {
      BlanksWellFormed(t, if TabStop(t.col) > t.col then TabStop(t.col) - t.col else 0);
    }
  }

  ghost function Feed(t: Term, bytes: seq<byte>): (r: Term)
    requires WellFormed(t)
    ensures WellFormed(r)
    decreases |bytes|
  {
    if bytes == [] then t
    else
      Feed1WellFormed(t, bytes[0]);
      Feed(Feed1(t, bytes[0]), bytes[1..])
  }

  /** Bytes may arrive in any pieces. */
  lemma {:induction false} FeedInPieces(t: Term, a: seq<byte>, b: seq<byte>)
    requires WellFormed(t)
    ensures Feed(t, a + b) == Feed(Feed(t, a), b)
    decreases |a|
  {
    if a == [] {
      assert a + b == b;
    } else {
      Feed1WellFormed(t, a[0]);
      FeedInPieces(Feed1(t, a[0]), a[1..], b);
      assert (a + b)[0] == a[0] && (a + b)[1..] == a[1..] + b;
    }
  }

  // ---- escape sequences ----

  /** The bytes a separate stripper passes on, starting inside or outside a sequence. */
  function Strip(e: Esc, bytes: seq<byte>): seq<byte>
    decreases |bytes|
  {
    if bytes == [] then []
    else (if e == Ground && bytes[0] != 0x1b then [bytes[0]] else []) + Strip(NextEsc(e, bytes[0]), bytes[1..])
  }

  function EscAfter(e: Esc, bytes: seq<byte>): Esc
    decreases |bytes|
  {
    if bytes == [] then e else EscAfter(NextEsc(e, bytes[0]), bytes[1..])
  }

  /** Stripping first changes nothing a reader can see. */
  lemma {:induction false} StrippedFirst(t: Term, bytes: seq<byte>)
    requires WellFormed(t)
    ensures Feed(t, bytes) == Feed(t.(esc := Ground), Strip(t.esc, bytes)).(esc := EscAfter(t.esc, bytes))
    decreases |bytes|
  {
    if bytes != [] {
      var b, g := bytes[0], t.(esc := Ground);
      Feed1WellFormed(t, b);
      var u := Feed1(t, b);
      StrippedFirst(u, bytes[1..]);
      if t.esc == Ground && b != 0x1b {
        var rest := Strip(u.esc, bytes[1..]);
        assert Strip(t.esc, bytes) == [b] + rest;
        assert ([b] + rest)[1..] == rest;
      } else {
        assert u.(esc := Ground) == g;
        assert Strip(t.esc, bytes) == Strip(u.esc, bytes[1..]);
      }
    }
  }

  /** The stripper may be fed in any pieces too. */
  lemma {:induction false} StripInPieces(e: Esc, a: seq<byte>, b: seq<byte>)
    ensures Strip(e, a + b) == Strip(e, a) + Strip(EscAfter(e, a), b)
    ensures EscAfter(e, a + b) == EscAfter(EscAfter(e, a), b)
    decreases |a|
  {
    if a == [] {
      assert a + b == b;
    } else {
      StripInPieces(NextEsc(e, a[0]), a[1..], b);
      ConcatHead(a, b);
      Reassociate(if e == Ground && a[0] != 0x1b then [a[0]] else [], Strip(NextEsc(e, a[0]), a[1..]), Strip(EscAfter(e, a), b));
    }
  }

  /** A whole control sequence, parameters and all, leaves no trace. */
  lemma {:induction false} SequenceLeavesNothing(params: seq<byte>, final: byte)
    requires forall i :: 0 <= i < |params| ==> !(0x40 <= params[i] <= 0x7e)
    requires 0x40 <= final <= 0x7e
    ensures Strip(Ground, [0x1b, 0x5b] + params + [final]) == [] && EscAfter(Ground, [0x1b, 0x5b] + params + [final]) == Ground
  {
    var open, whole := [0x1b, 0x5b], [0x1b, 0x5b] + params + [final];
    assert open[1..] == [0x5b] && [0x5b as byte][1..] == [];
    assert whole == open + (params + [final]);
    StripInPieces(Ground, open, params + [final]);
    ParametersSwallowed(params, final);
  }

  lemma {:induction false} ParametersSwallowed(params: seq<byte>, final: byte)
    requires forall i :: 0 <= i < |params| ==> !(0x40 <= params[i] <= 0x7e)
    requires 0x40 <= final <= 0x7e
    ensures Strip(Csi, params + [final]) == [] && EscAfter(Csi, params + [final]) == Ground
  {
    var s := params + [final];
    if params == [] {
      assert s[1..] == [];
    } else {
      ParametersSwallowed(params[1..], final);
      assert s[0] == params[0] && s[1..] == params[1..] + [final];
    }
  }

  /** Any other escape takes one byte with it. */
  lemma {:induction false} EscapeTakesOne(b: byte)
    requires b != 0x5b
    ensures Strip(Ground, [0x1b, b]) == [] && EscAfter(Ground, [0x1b, b]) == Ground
  {
    var pair, rest: seq<byte> := [0x1b, b], [b];
    assert pair[1..] == rest && rest[1..] == [];
    assert Strip(Seen, rest) == [] && EscAfter(Seen, rest) == Ground;
  }

  /** Text without an escape passes as it is. */
  lemma {:induction false} TextPasses(text: seq<byte>)
    requires 0x1b !in text
    ensures Strip(Ground, text) == text && EscAfter(Ground, text) == Ground
    decreases |text|
  {
    if text != [] {
      assert text[0] in text;
      TextPasses(text[1..]);
    }
  }

  // ---- deferred wrap ----

  /** Text cut into screen-width lines; a line exactly full is not followed by an empty one. */
  function Wrapped(text: seq<byte>): (r: seq<seq<byte>>)
    ensures r != []
  {
    if |text| <= COLS then [text] else [text[..COLS]] + Wrapped(text[COLS..])
  }

  lemma {:induction false} WrappedGrows(text: seq<byte>, b: byte)
    ensures var w := Wrapped(text);
            Wrapped(text + [b]) == if |w[|w| - 1]| == COLS then w + [[b]] else w[|w| - 1 := w[|w| - 1] + [b]]
    ensures text != [] ==> Wrapped(text)[|Wrapped(text)| - 1] != []
    decreases |text|
  {
    if |text| == COLS {
      assert (text + [b])[..COLS] == text && (text + [b])[COLS..] == [b];
    } else if |text| > COLS {
      WrappedGrows(text[COLS..], b);
      assert (text + [b])[..COLS] == text[..COLS] && (text + [b])[COLS..] == text[COLS..] + [b];
    }
  }

  lemma {:induction false} PrintableByte(t: Term, before: seq<seq<byte>>, line: seq<byte>, b: byte)
    requires WellFormed(t) && t.esc == Ground && t.lines == before + Wrapped(line) && t.col == |LastLine(t)| && Printable(b)
    ensures var u := Feed1(t, b);
            WellFormed(u) && u.esc == Ground && u.lines == before + Wrapped(line + [b]) && u.col == |LastLine(u)|
  {
    WrappedGrows(line, b);
    PlaceWellFormed(t, b);
    assert Feed1(t, b) == Place(t, b);
  }

  /** Printable text written at the end of a line is laid out as that line's wrapped continuation. */
  lemma {:induction false} PrintableText(t: Term, before: seq<seq<byte>>, line: seq<byte>, text: seq<byte>)
    requires WellFormed(t) && t.esc == Ground && t.lines == before + Wrapped(line) && t.col == |LastLine(t)|
    requires forall i :: 0 <= i < |text| ==> Printable(text[i])
    ensures Feed(t, text).lines == before + Wrapped(line + text)
    decreases |text|
  {
    if text == [] {
      assert line + text == line;
    } else {
      var b := text[0];
      PrintableByte(t, before, line, b);
      PrintableText(Feed1(t, b), before, line + [b], text[1..]);
      assert line + [b] + text[1..] == line + text;
    }
  }

  // ---- what the screen shows of it ----

  function Padded(line: seq<byte>): (r: seq<byte>)
    requires |line| <= COLS
    ensures |r| == COLS
  {
    line + seq(COLS - |line|, _ => BLANK)
  }

  /** How many rows are in use. */
  function Shown(lines: seq<seq<byte>>): nat {
    if |lines| < ROWS then |lines| else ROWS
  }

  /** Row `r` of the screen: the last `ROWS` lines, blank below the last. */
  ghost function ScreenRow(lines: seq<seq<byte>>, r: nat): (row: seq<byte>)
    requires LinesOk(lines) && r < ROWS
    ensures |row| == COLS
  {
    if r < Shown(lines) then Padded(lines[|lines| - Shown(lines) + r]) else Padded([])
  }

  /** The cells of the screen are the characters of the last lines, the last line lowest, and blanks around them. */
  lemma {:induction false} ScreenShowsTail(lines: seq<seq<byte>>, r: nat, c: nat)
    requires LinesOk(lines) && r < ROWS && c < COLS
    ensures var above := if |lines| < ROWS then 0 else |lines| - ROWS;
            ScreenRow(lines, r)[c] == if above + r < |lines| && c < |lines[above + r]| then lines[above + r][c] else BLANK
  {
  }

  /** A new line scrolls what is shown once every row is in use. */
  lemma {:induction false} NewLineShows(lines: seq<seq<byte>>, r: nat)
    requires LinesOk(lines) && r < ROWS
    ensures LinesOk(lines + [[]])
    ensures ScreenRow(lines + [[]], r) ==
            if |lines| < ROWS then ScreenRow(lines, r) else if r + 1 < ROWS then ScreenRow(lines, r + 1) else Padded([])
  {
  }

  lemma {:induction false} WrapThenPlace(t: Term, b: byte)
    requires WellFormed(t) && t.col == COLS
    ensures Place(Term(t.lines + [[]], 0, t.esc), b) == Place(t, b)
  {
    var u: seq<seq<byte>> := t.lines + [[]];
    assert [] + [b] == [b];
    assert u[|u| - 1 := [b]] == t.lines + [[b]];
  }

  lemma {:induction false} PlaceShows(t: Term, b: byte, r: nat, c: nat)
    requires WellFormed(t) && Printable(b) && t.col < COLS && r < ROWS && c < COLS
    ensures WellFormed(Place(t, b)) && |Place(t, b).lines| == |t.lines|
    ensures ScreenRow(Place(t, b).lines, r)[c] == if r == Shown(t.lines) - 1 && c == t.col then b else ScreenRow(t.lines, r)[c]
  {
  }

  lemma {:induction false} PlaceMoves(t: Term, b: byte)
    requires WellFormed(t) && t.col < COLS
    ensures Place(t, b).col == t.col + 1 && Place(t, b).esc == t.esc && 0 < Shown(Place(t, b).lines) == Shown(t.lines) <= ROWS
  {
  }

  class Grid {
    const cells: array2<byte>
    var row: nat
    var col: nat
    var dirty: bool
    var esc: Esc
    ghost var term: Term

    ghost predicate Valid()
      reads this, cells
    {
      && cells.Length0 == ROWS && cells.Length1 == COLS
      && WellFormed(term) && col == term.col && esc == term.esc
      && row == Shown(term.lines) - 1
      && (forall r, c :: 0 <= r < ROWS && 0 <= c < COLS ==> cells[r, c] == ScreenRow(term.lines, r)[c])
    }

    constructor Blank()
      ensures Valid() && term == Fresh && dirty && fresh(cells)
    {
      cells := new byte[ROWS, COLS]((_, _) => BLANK);
      row, col, dirty, esc, term := 0, 0, true, Ground, Fresh;
    }

    /** Moves to the start of the next row, scrolling the whole grid up when there is none. */
    method Newline()
      requires Valid()
      modifies this, cells
      ensures Valid() && col == 0 && term == Term(old(term).lines + [[]], 0, old(term).esc) && dirty == old(dirty)
    {
      ghost var before := term.lines;
      forall r | 0 <= r < ROWS ensures ScreenRow(before + [[]], r) ==
            if |before| < ROWS then ScreenRow(before, r) else if r + 1 < ROWS then ScreenRow(before, r + 1) else Padded([]) {
        NewLineShows(before, r);
      }
      col := 0;
      term := Term(before + [[]], 0, term.esc);
      if row + 1 < ROWS {
        row := row + 1;
        return;
      }
      forall r, c | 0 <= r < ROWS && 0 <= c < COLS {
        cells[r, c] := if r + 1 < ROWS then cells[r + 1, c] else BLANK;
      }
    }

    method Write(b: byte)
      requires Valid() && Printable(b)
      modifies this, cells
      ensures Valid() && term == Place(old(term), b) && dirty == old(dirty)
    {
      hide Place, ScreenRow, Shown;
      ghost var before := term;
      if col == COLS {
        Newline();
        WrapThenPlace(before, b);
      }
      ghost var t := term;
      PlaceMoves(t, b);
      PlaceWellFormed(t, b);
      forall r, c | 0 <= r < ROWS && 0 <= c < COLS
        ensures ScreenRow(Place(t, b).lines, r)[c] == if r == Shown(t.lines) - 1 && c == t.col then b else ScreenRow(t.lines, r)[c]
      {
        PlaceShows(t, b, r, c);
      }
      cells[row, col] := b;
      col := col + 1;
      term := Place(t, b);
    }

    method Put(b: byte)
      requires Valid()
      modifies this, cells
      ensures Valid() && term == Feed1(old(term), b) && dirty
    {
      dirty := true;
      match esc {
        case Seen =>
          esc := if b == 0x5b then Csi else Ground;
          term := term.(esc := esc);
        case Csi =>
          if 0x40 <= b <= 0x7e {
            esc := Ground;
          }
          term := term.(esc := esc);
        case Ground => PutGround(b);
      }
    }

    method PutGround(b: byte)
      requires Valid() && esc == Ground
      modifies this, cells
      ensures Valid() && term == Feed1(old(term), b) && dirty == old(dirty)
    {
      if b == 0x1b {
        esc := Seen;
        term := term.(esc := Seen);
      } else if b == 0x0a {
        Newline();
      } else if b == 0x0d {
        col := 0;
        term := term.(col := 0);
      } else if b == 0x08 {
        col := if col == 0 then 0 else col - 1;
        term := term.(col := col);
      } else if b == 0x09 {
        PutTab();
      } else if Printable(b) {
        Write(b);
      }
    }

    /** At least one blank, then on to the next tab stop. */
    method PutTab()
      requires Valid()
      modifies this, cells
      ensures Valid() && dirty == old(dirty)
      ensures term == PlaceBlanks(old(term), if TabStop(old(col)) > old(col) then TabStop(old(col)) - old(col) else 0)
    {
      hide ScreenRow, Place;
      var stop := (col / TAB + 1) * TAB;
      var end := if stop < COLS then stop else COLS;
      var n := if end > col then end - col else 0;
      ghost var whole := PlaceBlanks(term, n);
      var i := 0;
      while i < n
        invariant i <= n && Valid() && dirty == old(dirty)
        invariant PlaceBlanks(term, n - i) == whole
      {
        Write(BLANK);
        i := i + 1;
      }
    }

    method WriteBytes(bytes: seq<byte>)
      requires Valid()
      modifies this, cells
      ensures Valid() && term == Feed(old(term), bytes)
    {
      var i := 0;
      while i < |bytes|
        invariant i <= |bytes| && Valid()
        invariant Feed(term, bytes[i..]) == Feed(old(term), bytes)
      {
        assert bytes[i..][1..] == bytes[i + 1..];
        Feed1WellFormed(term, bytes[i]);
        Put(bytes[i]);
        i := i + 1;
      }
    }

    method TakeDirty() returns (was: bool)
      modifies this`dirty
      ensures was == old(dirty) && !dirty
    {
      was := dirty;
      dirty := false;
    }
  }
}
