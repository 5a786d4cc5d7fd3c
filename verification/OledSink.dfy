/** The console sink that draws the grid, and falls back to a distress pattern when drawing fails. */
module OledSink {
  import opened Bytes
  import opened Terminal

  const ALERT_AFTER: nat := 3
  const NEWLINE: byte := 0x0a
  const HEARTBEAT: seq<byte> := [0x7c, 0x2f, 0x2d, 0x5c]
  const CELLS: nat := ROWS * (COLS + 1) - 1

  type Row = r: seq<byte> | |r| == COLS witness seq(COLS, _ => 0)

  /** The first `n` rows, joined by newlines. */
  function Joined(rows: seq<Row>, n: nat): (s: seq<byte>)
    requires n <= |rows|
    ensures n > 0 ==> |s| == n * (COLS + 1) - 1
  {
    if n == 0 then [] else if n == 1 then rows[0] else Joined(rows, n - 1) + [NEWLINE] + rows[n - 1]
  }

  ghost function Screenful(lines: seq<seq<byte>>): (rows: seq<Row>)
    requires LinesOk(lines)
    ensures |rows| == ROWS && forall r :: 0 <= r < ROWS ==> rows[r] == ScreenRow(lines, r)
  {
    seq(ROWS, r requires 0 <= r < ROWS => ScreenRow(lines, r))
  }

  /** The exact string the screen shows: the rows, with the spinner over a blank last cell. */
  ghost function FrameOf(lines: seq<seq<byte>>, heartbeat: bool, beat: nat): (s: seq<byte>)
    requires LinesOk(lines)
    ensures |s| == CELLS
  {
    Spun(Joined(Screenful(lines), ROWS), heartbeat, beat)
  }

  lemma {:induction false} JoinedAt(rows: seq<Row>, n: nat, r: nat, c: nat)
    requires r < n <= |rows| && c < COLS
    ensures Joined(rows, n)[r * 17 + c] == rows[r][c]
    ensures r + 1 < n ==> Joined(rows, n)[r * 17 + 16] == NEWLINE
  {
    if n > 1 {
      if r < n - 1 {
        JoinedAt(rows, n - 1, r, c);
      }
      MoreJoined(Joined(rows, n - 1), rows[n - 1]);
    }
  }

  lemma {:induction false} MoreJoined(s: seq<byte>, row: seq<byte>)
    ensures var t := s + [NEWLINE] + row;
            && (forall k :: 0 <= k < |s| ==> t[k] == s[k])
            && t[|s|] == NEWLINE
            && (forall k :: |s| + 1 <= k < |t| ==> t[k] == row[k - |s| - 1])
  {
  }

  lemma {:induction false} RowsPrintable(lines: seq<seq<byte>>, r: nat, c: nat)
    requires LinesOk(lines) && r < ROWS && c < COLS
    ensures Printable(ScreenRow(lines, r)[c])
  {
    if r < Shown(lines) {
      assert LineOk(lines[|lines| - Shown(lines) + r]);
    }
  }

  /** The spinner goes over the last byte of a frame, when that is blank, and nowhere else. */
  function Spun(s: seq<byte>, heartbeat: bool, beat: nat): (f: seq<byte>)
    requires |s| > 0
    ensures |f| == |s|
  {
    if heartbeat && s[|s| - 1] == BLANK then s[|s| - 1 := HEARTBEAT[beat % 4]] else s
  }

  /** Lines are `COLS + 1 == 17` bytes apart. Character `c` of line `r` of a frame shows this cell, or is the spinner over a blank last cell. */
  predicate Shows(f: seq<byte>, r: nat, c: nat, cell: byte, heartbeat: bool)
    requires |f| == CELLS && r < ROWS && c < COLS
  {
    var at := r * 17 + c;
    Printable(f[at]) && (f[at] == cell || (heartbeat && cell == BLANK && r == ROWS - 1 && c == COLS - 1))
  }

  predicate Ends(f: seq<byte>, r: nat)
    requires |f| == CELLS && r + 1 < ROWS
  {
    f[r * 17 + 16] == NEWLINE
  }

  /** A frame is `ROWS` lines of `COLS` printable characters; it differs from the grid at most in a blank last cell. */
  lemma {:induction false} FrameShape(lines: seq<seq<byte>>, heartbeat: bool, beat: nat, r: nat, c: nat)
    requires LinesOk(lines) && r < ROWS && c < COLS
    ensures Shows(FrameOf(lines, heartbeat, beat), r, c, ScreenRow(lines, r)[c], heartbeat)
    ensures r + 1 < ROWS ==> Ends(FrameOf(lines, heartbeat, beat), r)
  {
    JoinedAt(Screenful(lines), ROWS, r, c);
    RowsPrintable(lines, r, c);
    var s := Joined(Screenful(lines), ROWS);
    var cell := ScreenRow(lines, r)[c];
    Spinning(s, cell, heartbeat, beat, r, c);
  }

  lemma {:induction false} Spinning(s: seq<byte>, cell: byte, heartbeat: bool, beat: nat, r: nat, c: nat)
    requires |s| == CELLS && r < ROWS && c < COLS
    requires s[r * 17 + c] == cell && Printable(cell)
    ensures Shows(Spun(s, heartbeat, beat), r, c, cell, heartbeat)
    ensures r + 1 < ROWS && Ends(s, r) ==> Ends(Spun(s, heartbeat, beat), r)
  {
    assert forall k: nat :: k < 4 ==> Printable(HEARTBEAT[k]);
  }

  /** Over a blank last cell the spinner shows, and moves at every beat; without a heartbeat it does not. */
  lemma {:induction false} SpinnerTurns(lines: seq<seq<byte>>, beat: nat)
    requires LinesOk(lines) && ScreenRow(lines, ROWS - 1)[COLS - 1] == BLANK
    ensures FrameOf(lines, false, beat)[CELLS - 1] == BLANK
    ensures FrameOf(lines, true, beat)[CELLS - 1] in HEARTBEAT && FrameOf(lines, true, beat)[CELLS - 1] != FrameOf(lines, true, beat + 1)[CELLS - 1]
    ensures FrameOf(lines, true, beat)[..CELLS - 1] == FrameOf(lines, false, beat)[..CELLS - 1]
  {
    JoinedAt(Screenful(lines), ROWS, ROWS - 1, COLS - 1);
    var now, next := beat % 4, (beat + 1) % 4;
    assert now != next && HEARTBEAT[now] != HEARTBEAT[next];
  }

  // ---- outages ----

  /** Consecutive failures at the end of a history of draws. */
  function Streak(draws: seq<bool>): nat {
    if draws == [] || draws[|draws| - 1] then 0 else Streak(draws[..|draws| - 1]) + 1
  }

  /** The lengths of the maximal runs of failures, oldest first; the last may still be growing. */
  function Outages(draws: seq<bool>): seq<nat> {
    if draws == [] then []
    else
      var before, o := draws[..|draws| - 1], Outages(draws[..|draws| - 1]);
      if draws[|draws| - 1] then o
      else if before == [] || before[|before| - 1] || o == [] then o + [1]
      else o[|o| - 1 := o[|o| - 1] + 1]
  }

  function LongOnes(outages: seq<nat>): nat {
    if outages == [] then 0
    else LongOnes(outages[..|outages| - 1]) + if outages[|outages| - 1] >= ALERT_AFTER then 1 else 0
  }

  lemma {:induction false} OpenOutage(draws: seq<bool>)
    requires draws != [] && !draws[|draws| - 1]
    ensures Outages(draws) != [] && Outages(draws)[|Outages(draws)| - 1] == Streak(draws)
  {
    var before := draws[..|draws| - 1];
    if before != [] && !before[|before| - 1] {
      OpenOutage(before);
    }
  }

  /** One more draw: a long outage is counted when it becomes long, and not again. */
  lemma {:induction false} OneMoreDraw(draws: seq<bool>, ok: bool)
    ensures Streak(draws + [ok]) == if ok then 0 else Streak(draws) + 1
    ensures LongOnes(Outages(draws + [ok])) == LongOnes(Outages(draws)) + if !ok && Streak(draws) + 1 == ALERT_AFTER then 1 else 0
  {
    var after, o := draws + [ok], Outages(draws);
    assert after[..|after| - 1] == draws;
    if !ok {
      if draws == [] || draws[|draws| - 1] {
        assert Outages(after) == o + [1] && (o + [1])[..|o|] == o;
      } else {
        OpenOutage(draws);
        var grown := o[|o| - 1 := o[|o| - 1] + 1];
        assert Outages(after) == grown && grown[..|o| - 1] == o[..|o| - 1];
      }
    }
  }

  /** A screen that shows what was last drawn on it, when drawing succeeded. */
  class Screen {
    var shown: seq<byte>
    var draws: seq<bool>
    var alerts: nat

    constructor ()
      ensures draws == [] && alerts == 0
    {
      shown, draws, alerts := [], [], 0;
    }

    method Draw(frame: seq<byte>) returns (ok: bool)
      modifies this`shown, this`draws
      ensures draws == old(draws) + [ok]
      ensures ok ==> shown == frame
    {
      ok := *;
      draws := draws + [ok];
      if ok {
        shown := frame;
      }
    }

    method Alert()
      modifies this`alerts
      ensures alerts == old(alerts) + 1
    {
      alerts := alerts + 1;
    }
  }

  class Sink {
    const grid: Grid
    const screen: Screen
    var pending: bool
    var beat: nat
    var heartbeat: bool
    var streak: nat

    /** The streak and the alerts agree with the history of draws. */
    ghost predicate Counted()
      reads this`streak, screen
    {
      streak == Streak(screen.draws) && screen.alerts == LongOnes(Outages(screen.draws))
    }

    ghost predicate Valid()
      reads this, grid, grid.cells, screen
    {
      && grid.Valid()
      && Counted()
      && (pending || grid.dirty || screen.shown == FrameOf(grid.term.lines, heartbeat, beat))
    }

    constructor (screen: Screen)
      requires screen.draws == [] && screen.alerts == 0
      modifies screen
      ensures Valid() && fresh(grid) && fresh(grid.cells) && this.screen == screen
      ensures |screen.draws| == 1
    {
      grid := new Grid.Blank();
      this.screen := screen;
      pending, beat, heartbeat, streak := true, 0, true, 0;
      new;
      Banner();
      Flush();
    }

    /** What the display shows before the guest has said anything. */
    method Banner()
      requires grid.Valid()
      modifies grid, grid.cells
      ensures grid.Valid()
    {
      grid.WriteBytes([0x72, 0x76, 0x36, 0x34, 0x20, 0x65, 0x6d, 0x75, 0x20, 0x31, 0x36, 0x78, 0x38, 0x0a]);
      grid.WriteBytes([0x30, 0x31, 0x32, 0x33, 0x34, 0x35, 0x36, 0x37, 0x38, 0x39, 0x61, 0x62, 0x63, 0x64, 0x65, 0x66, 0x0a]);
    }

    method Put(b: byte)
      requires Valid()
      modifies grid, grid.cells
      ensures Valid() && grid.term == Feed1(old(grid.term), b)
    {
      grid.Put(b);
    }

    method Tick()
      requires Valid()
      modifies this`beat, this`pending
      ensures Valid() && beat == old(beat) + 1 && pending
    {
      beat := beat + 1;
      pending := true;
    }

    method SetHeartbeat(on: bool)
      requires Valid()
      modifies this`heartbeat, this`pending
      ensures Valid() && heartbeat == on && pending
    {
      heartbeat := on;
      pending := true;
    }

    method RowBytes(r: nat) returns (s: seq<byte>)
      requires grid.Valid() && r < ROWS
      ensures s == ScreenRow(grid.term.lines, r)
    {
      s := [];
      while |s| < COLS
        invariant |s| <= COLS && forall c :: 0 <= c < |s| ==> s[c] == ScreenRow(grid.term.lines, r)[c]
      {
        var b := CellAt(r, |s|);
        s := s + [b];
      }
    }

    method CellAt(r: nat, c: nat) returns (b: byte)
      requires grid.Valid() && r < ROWS && c < COLS
      ensures b == ScreenRow(grid.term.lines, r)[c]
    {
      b := grid.cells[r, c];
    }

    method Frame() returns (s: seq<byte>)
      requires grid.Valid()
      ensures s == FrameOf(grid.term.lines, heartbeat, beat)
    {
      s := RowBytes(0);
      var r := 1;
      while r < ROWS
        invariant 1 <= r <= ROWS && s == Joined(Screenful(grid.term.lines), r)
      {
        var row := RowBytes(r);
        s := s + [NEWLINE] + row;
        r := r + 1;
      }
      s := Beat(s);
    }

    /** The spinner, over a blank last character. */
    method Beat(s: seq<byte>) returns (f: seq<byte>)
      requires |s| > 0
      ensures f == Spun(s, heartbeat, beat)
    {
      f := s;
      if heartbeat && s[|s| - 1] == BLANK {
        f := s[|s| - 1 := HEARTBEAT[beat % |HEARTBEAT|]];
      }
    }

    /** Draws if and only if a frame is owed; a failed draw leaves it owed. */
    method Flush()
      requires Valid()
      modifies this`pending, this`streak, grid`dirty, screen
      ensures Valid() && !grid.dirty
      ensures screen.draws == old(screen.draws) + if old(pending) || old(grid.dirty) then [!pending] else []
      ensures !pending ==> screen.shown == FrameOf(grid.term.lines, heartbeat, beat)
    {
      var was := grid.TakeDirty();
      if was {
        pending := true;
      }
      if pending {
        DrawFrame();
      }
    }

    method DrawFrame()
      requires Valid() && pending && !grid.dirty
      modifies this`pending, this`streak, screen
      ensures Valid() && screen.draws == old(screen.draws) + [!pending]
      ensures !pending ==> screen.shown == FrameOf(grid.term.lines, heartbeat, beat)
    {
      var frame := Frame();
      DrawOnce(frame);
    }

    /** One draw, counted; a failed one is still owed. */
    method DrawOnce(frame: seq<byte>)
      requires Counted()
      modifies this`pending, this`streak, screen
      ensures Counted() && screen.draws == old(screen.draws) + [!pending]
      ensures !pending ==> screen.shown == frame
    {
      ghost var before := screen.draws;
      var ok := screen.Draw(frame);
      pending := !ok;
      assert screen.draws[..|screen.draws| - 1] == before;
      Count(ok);
    }

    /** Keeps the streak, and raises the alert when it reaches `ALERT_AFTER`. */
    method Count(ok: bool)
      requires screen.draws != [] && screen.draws[|screen.draws| - 1] == ok
      requires streak == Streak(screen.draws[..|screen.draws| - 1])
      requires screen.alerts == LongOnes(Outages(screen.draws[..|screen.draws| - 1]))
      modifies this`streak, screen`alerts
      ensures Counted()
    {
      ghost var draws := screen.draws[..|screen.draws| - 1];
      assert screen.draws == draws + [ok];
      OneMoreDraw(draws, ok);
      if ok {
        streak := 0;
      } else {
        streak := streak + 1;
        if streak == ALERT_AFTER {
          screen.Alert();
        }
      }
    }
  }
}
