/** What line feed, carriage return, backspace and tab do to a terminal, said of the text around them. */
module TerminalControls {
  import opened Bytes
  import opened Sequences
  import opened Terminal

  const BS: byte := 0x08
  const HT: byte := 0x09
  const NL: byte := 0x0a
  const CR: byte := 0x0d
  const DEL: byte := 0x7f

  predicate AllPrintable(text: seq<byte>) {
    forall i :: 0 <= i < |text| ==> Printable(text[i])
  }

  // ---- line feed ----

  /** Text cut at its line feeds. */
  function Split(text: seq<byte>): (ls: seq<seq<byte>>)
    ensures ls != []
  {
    if text == [] then [[]]
    else
      var ls, b := Split(text[..|text| - 1]), text[|text| - 1];
      if b == NL then ls + [[]] else ls[|ls| - 1 := ls[|ls| - 1] + [b]]
  }

  /** Each line wrapped to the width of the screen, one after another. */
  function WrapAll(ls: seq<seq<byte>>): seq<seq<byte>> {
    if ls == [] then [] else WrapAll(ls[..|ls| - 1]) + Wrapped(ls[|ls| - 1])
  }

  lemma {:induction false} WrapAllLast(ls: seq<seq<byte>>, line: seq<byte>)
    ensures WrapAll(ls + [line]) == WrapAll(ls) + Wrapped(line)
  {
    assert (ls + [line])[..|ls|] == ls;
  }

  lemma {:induction false} FeedLast(t: Term, text: seq<byte>, b: byte)
    requires WellFormed(t)
    ensures Feed(t, text + [b]) == Feed(Feed(t, text), [b])
  {
    FeedInPieces(t, text, [b]);
  }

  lemma {:induction false} FeedOne(t: Term, b: byte)
    requires WellFormed(t)
    ensures WellFormed(Feed1(t, b)) && Feed(t, [b]) == Feed1(t, b)
  {
    Feed1WellFormed(t, b);
    assert [b][1..] == [];
  }

  /** Where text has been written from the start of a line on. */
  ghost predicate WrittenAs(t: Term, ls: seq<seq<byte>>) {
    WellFormed(t) && t.esc == Ground && ls != [] && t.lines == WrapAll(ls) && t.col == |LastLine(t)|
  }

  lemma {:induction false} OneMoreByte(t: Term, ls: seq<seq<byte>>, b: byte)
    requires WrittenAs(t, ls) && (Printable(b) || b == NL)
    ensures WrittenAs(Feed(t, [b]), if b == NL then ls + [[]] else ls[|ls| - 1 := ls[|ls| - 1] + [b]])
  {
    FeedOne(t, b);
    if b == NL {
      WrapAllLast(ls, []);
    } else {
      var before, line := ls[..|ls| - 1], ls[|ls| - 1];
      assert ls == before + [line] && ls[|ls| - 1 := line + [b]] == before + [line + [b]];
      WrapAllLast(before, line);
      WrapAllLast(before, line + [b]);
      PrintableByte(t, WrapAll(before), line, b);
    }
  }

  /** From a fresh screen, text of printable bytes and line feeds is its lines, each wrapped. */
  lemma {:induction false} TextLines(text: seq<byte>)
    requires forall i :: 0 <= i < |text| ==> Printable(text[i]) || text[i] == NL
    ensures Feed(Fresh, text).lines == WrapAll(Split(text)) && WrittenAs(Feed(Fresh, text), Split(text))
  {
    if text == [] {
      var empty: seq<byte> := [];
      WrapAllLast([], empty);
      assert [] + [empty] == [empty] && WrapAll([]) + Wrapped(empty) == [empty];
    } else {
      var rest, b := text[..|text| - 1], text[|text| - 1];
      TextLines(rest);
      assert text == rest + [b];
      FeedLast(Fresh, rest, b);
      OneMoreByte(Feed(Fresh, rest), Split(rest), b);
    }
  }

  /** The same terminal with more lines above. */
  function Below(above: seq<seq<byte>>, t: Term): Term {
    Term(above + t.lines, t.col, t.esc)
  }

  lemma {:induction false} PlaceBelow(above: seq<seq<byte>>, t: Term, b: byte)
    requires LinesOk(above + t.lines) && WellFormed(t) && Printable(b)
    ensures WellFormed(Below(above, t)) && Place(Below(above, t), b) == Below(above, Place(t, b)) && LinesOk(above + Place(t, b).lines)
  {
    var u := Below(above, t);
    assert LastLine(u) == LastLine(t);
    PlaceWellFormed(t, b);
    PlaceWellFormed(u, b);
    if t.col == COLS {
      Reassociate(above, t.lines, [[b]]);
    } else {
      var now := if t.col < |LastLine(t)| then LastLine(t)[t.col := b] else LastLine(t) + [b];
      assert u.lines[|u.lines| - 1 := now] == above + t.lines[|t.lines| - 1 := now];
    }
  }

  lemma {:induction false} BlanksBelow(above: seq<seq<byte>>, t: Term, n: nat)
    requires LinesOk(above + t.lines) && WellFormed(t)
    ensures WellFormed(Below(above, t)) && PlaceBlanks(Below(above, t), n) == Below(above, PlaceBlanks(t, n)) && LinesOk(above + PlaceBlanks(t, n).lines)
    decreases n
  {
    if n > 0 {
      PlaceBelow(above, t, BLANK);
      PlaceWellFormed(t, BLANK);
      BlanksBelow(above, Place(t, BLANK), n - 1);
    }
  }

  lemma {:induction false} ByteBelow(above: seq<seq<byte>>, t: Term, b: byte)
    requires LinesOk(above + t.lines) && WellFormed(t)
    ensures WellFormed(Below(above, t)) && Feed1(Below(above, t), b) == Below(above, Feed1(t, b)) && LinesOk(above + Feed1(t, b).lines)
  {
    var u := Below(above, t);
    assert LastLine(u) == LastLine(t);
    if t.esc == Ground && Printable(b) {
      PlaceBelow(above, t, b);
    } else if t.esc == Ground && b == HT {
      BlanksBelow(above, t, if TabStop(t.col) > t.col then TabStop(t.col) - t.col else 0);
    } else if t.esc == Ground && b == NL {
      Reassociate(above, t.lines, [[]]);
    }
  }

  /** Nothing that comes later reaches the lines above the last one. */
  lemma {:induction false} FeedBelow(above: seq<seq<byte>>, t: Term, text: seq<byte>)
    requires LinesOk(above + t.lines) && WellFormed(t)
    ensures WellFormed(Below(above, t)) && Feed(Below(above, t), text) == Below(above, Feed(t, text))
    decreases |text|
  {
    if text != [] {
      ByteBelow(above, t, text[0]);
      Feed1WellFormed(t, text[0]);
      FeedBelow(above, Feed1(t, text[0]), text[1..]);
    }
  }

  /** After a line feed any text at all is laid out as on a fresh screen, below what was there. */
  lemma {:induction false} LineFeedStartsAfresh(t: Term, text: seq<byte>)
    requires WellFormed(t) && t.esc == Ground
    ensures Feed(t, [NL] + text).lines == t.lines + Feed(Fresh, text).lines
  {
    FeedOne(t, NL);
    FeedInPieces(t, [NL], text);
    assert Feed1(t, NL) == Below(t.lines, Fresh);
    FeedBelow(t.lines, Fresh, text);
  }

  // ---- carriage return ----

  /** A line written over from its start. */
  function Over(line: seq<byte>, text: seq<byte>): (ls: seq<seq<byte>>)
    ensures ls != []
  {
    if |text| <= |line| then [text + line[|text|..]] else Wrapped(text)
  }

  lemma {:induction false} OverGrows(line: seq<byte>, text: seq<byte>, b: byte)
    requires |line| <= COLS
    ensures |text| < |line| ==> Over(line, text + [b]) == [(text + line[|text|..])[|text| := b]]
    ensures |text| >= |line| ==> Over(line, text) == Wrapped(text) && Over(line, text + [b]) == Wrapped(text + [b])
  {
    if |text| < |line| {
      assert (text + line[|text|..])[|text| := b] == text + [b] + line[|text| + 1..];
    } else if |text| == |line| {
      assert text + line[|text|..] == text;
    }
  }

  /** Where overwriting text has got to. */
  ghost predicate WrittenOver(t: Term, above: seq<seq<byte>>, line: seq<byte>, text: seq<byte>) {
    && WellFormed(t) && t.esc == Ground && t.lines == above + Over(line, text)
    && t.col == if |text| < |line| then |text| else |LastLine(t)|
  }

  lemma {:induction false} OverOne(t: Term, above: seq<seq<byte>>, line: seq<byte>, text: seq<byte>, b: byte)
    requires |line| <= COLS && WrittenOver(t, above, line, text) && Printable(b)
    ensures WrittenOver(Feed(t, [b]), above, line, text + [b])
  {
    FeedOne(t, b);
    OverGrows(line, text, b);
    if |text| < |line| {
      var now := LastLine(t)[t.col := b];
      assert LastLine(t) == text + line[|text|..];
      assert t.lines[|t.lines| - 1 := now] == above + [now];
    } else {
      PrintableByte(t, above, text, b);
    }
  }

  /** After a carriage return text goes over the line from its first column, and the lines above stay. */
  lemma {:induction false} ReturnOverwrites(t: Term, text: seq<byte>)
    requires WellFormed(t) && t.esc == Ground && AllPrintable(text)
    ensures Feed(t, [CR] + text).lines == t.lines[..|t.lines| - 1] + Over(LastLine(t), text)
    ensures WrittenOver(Feed(t, [CR] + text), t.lines[..|t.lines| - 1], LastLine(t), text)
  {
    var above := t.lines[..|t.lines| - 1];
    if text == [] {
      FeedOne(t, CR);
      assert [CR] + text == [CR];
      assert [] + LastLine(t)[0..] == LastLine(t);
      assert t.lines == above + [LastLine(t)];
    } else {
      var rest, b := text[..|text| - 1], text[|text| - 1];
      ReturnOverwrites(t, rest);
      assert text == rest + [b] && [CR] + text == [CR] + rest + [b];
      FeedLast(t, [CR] + rest, b);
      OverOne(Feed(t, [CR] + rest), above, LastLine(t), rest, b);
    }
  }

  // ---- backspace ----

  /** A byte, a backspace and another byte are as good as the second byte alone. */
  lemma {:induction false} BackspaceReplaces(t: Term, p: byte, q: byte)
    requires WellFormed(t) && t.esc == Ground && Printable(p) && Printable(q)
    ensures Feed(t, [p, BS, q]) == Feed(t, [q])
  {
    ThreeBytes(t, p, BS, q);
    FeedOne(t, q);
    PlaceWellFormed(t, p);
    var u := Place(t, p);
    var back := u.(col := u.col - 1);
    assert Feed1(u, BS) == back;
    if t.col == COLS {
      assert back.lines[|back.lines| - 1 := [q]] == t.lines + [[q]];
      assert [p][0 := q] == [q];
    } else {
      var line := LastLine(t);
      var once := if t.col < |line| then line[t.col := p] else line + [p];
      var twice := if t.col < |line| then line[t.col := q] else line + [q];
      assert once[t.col := q] == twice;
      assert u.lines[|u.lines| - 1 := twice] == t.lines[|t.lines| - 1 := twice];
    }
  }

  lemma {:induction false} ThreeBytes(t: Term, a: byte, b: byte, c: byte)
    requires WellFormed(t)
    ensures WellFormed(Feed1(t, a)) && WellFormed(Feed1(Feed1(t, a), b))
    ensures Feed(t, [a, b, c]) == Feed1(Feed1(Feed1(t, a), b), c)
  {
    Feed1WellFormed(t, a);
    Feed1WellFormed(Feed1(t, a), b);
    FeedOne(Feed1(Feed1(t, a), b), c);
    assert [a, b, c][1..] == [b, c] && [b, c][1..] == [c];
  }

  /** It erases nothing, and stops at the first column. */
  lemma {:induction false} BackspaceMoves(t: Term)
    requires WellFormed(t) && t.esc == Ground
    ensures Feed(t, [BS]).lines == t.lines && Feed(t, [BS]).esc == Ground
    ensures t.col == 0 ==> Feed(t, [BS]).col == 0
    ensures t.col > 0 ==> Feed(t, [BS]).col + 1 == t.col
  {
    FeedOne(t, BS);
  }

  // ---- tab ----

  function Blanks(n: nat): (s: seq<byte>)
    ensures |s| == n && forall i :: 0 <= i < n ==> s[i] == BLANK
  {
    seq(n, _ => BLANK)
  }

  lemma {:induction false} BlanksFed(t: Term, n: nat)
    requires WellFormed(t) && t.esc == Ground
    ensures Feed(t, Blanks(n)) == PlaceBlanks(t, n)
    ensures t.col + n <= COLS ==> PlaceBlanks(t, n).col == t.col + n
    decreases n
  {
    if n > 0 {
      PlaceWellFormed(t, BLANK);
      assert Blanks(n)[1..] == Blanks(n - 1);
      assert Feed1(t, BLANK) == Place(t, BLANK);
      BlanksFed(Place(t, BLANK), n - 1);
    }
  }

  /** The next tab stop: the least multiple of the tab width past the column. */
  predicate NextStop(col: nat, stop: nat) {
    col < stop && stop % TAB == 0 && forall k :: col < k < stop ==> k % TAB != 0
  }

  lemma {:induction false} StopIsNext(col: nat)
    requires col < COLS
    ensures col < TabStop(col) <= COLS && NextStop(col, TabStop(col))
  {
  }

  /** A tab writes blanks up to the next stop; past the last column there is none to go to. */
  lemma {:induction false} TabToStop(t: Term) returns (n: nat)
    requires WellFormed(t) && t.esc == Ground
    ensures Feed(t, [HT]) == Feed(t, Blanks(n)) && Feed(t, [HT]).col == t.col + n
    ensures if t.col < COLS then NextStop(t.col, t.col + n) && t.col + n <= COLS else n == 0
  {
    FeedOne(t, HT);
    if t.col < COLS {
      StopIsNext(t.col);
      n := TabStop(t.col) - t.col;
    } else {
      n := 0;
    }
    BlanksFed(t, n);
  }

  // ---- the rest ----

  /** Every other control, and every byte past the printable ones, leaves no trace. */
  lemma {:induction false} Dropped(t: Term, b: byte)
    requires WellFormed(t) && t.esc == Ground
    requires b >= DEL || (b < BLANK && b != BS && b != HT && b != NL && b != CR && b != 0x1b)
    ensures Feed(t, [b]) == t
  {
    FeedOne(t, b);
  }
}
