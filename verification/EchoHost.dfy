/**
 The serial tokenizer of the echo host: it serves whole tokens out of a stream
 that arrives in arbitrary pieces, and trims what it has not been able to use.
 */
module EchoHost {
  import opened Bytes
  import opened Wrappers

  const LF: byte := 10
  const CR: byte := 13
  const REQ: seq<byte> := [0x52, 0x45, 0x51]
  const REQUEST: seq<byte> := [0x52, 0x45, 0x51, 0x0a]
  const REPORT: seq<byte> := [0x0d, 0x0a]
  const STREAM: seq<byte> := [0x53, 0x54, 0x52, 0x45, 0x41, 0x4d, 0x20]
  const KEEP: nat := 32
  const TRIM_OVER: nat := 8192
  const READ_MAX: nat := 65536

  /** What a token asks for: one page, a run of pages, or a report line to be shown. */
  datatype Token = OnePage | Pages(n: nat) | ReportLine

  // ---- what a stream of bytes asks for ----

  predicate IsDigit(b: byte) { 0x30 <= b <= 0x39 }

  predicate AllDigits(s: seq<byte>) {
    forall i :: 0 <= i < |s| ==> IsDigit(s[i])
  }

  function Decimal(s: seq<byte>): nat
  {
    if s == [] then 0 else Decimal(s[..|s| - 1]) * 10 + if IsDigit(s[|s| - 1]) then (s[|s| - 1] - 0x30) as nat else 0
  }

  /** A number in decimal digits. */
  function Numeral(n: nat): seq<byte> {
    (if n < 10 then [] else Numeral(n / 10)) + [0x30 + (n % 10) as byte]
  }

  /** Digits read back as the number they are written for, leading zeros or not. */
  lemma {:induction false} DecimalBack(zeros: nat, n: nat)
    ensures var s := seq(zeros, _ => 0x30) + Numeral(n); AllDigits(s) && Decimal(s) == n
    decreases n
  {
    var z: seq<byte> := seq(zeros, _ => 0x30);
    var s := z + Numeral(n);
    var d: byte := 0x30 + (n % 10) as byte;
    if n < 10 {
      OnlyZeros(zeros);
      assert s == z + [d];
    } else {
      DecimalBack(zeros, n / 10);
      assert s == z + Numeral(n / 10) + [d];
    }
    assert s[..|s| - 1] == if n < 10 then z else z + Numeral(n / 10);
  }

  lemma {:induction false} OnlyZeros(n: nat)
    ensures Decimal(seq(n, _ => 0x30)) == 0
  {
    if n > 0 {
      OnlyZeros(n - 1);
      var z: seq<byte> := seq(n, _ => 0x30);
      assert z[..n - 1] == seq(n - 1, _ => 0x30);
    }
  }

  predicate EndsWith(s: seq<byte>, tail: seq<byte>) {
    |tail| <= |s| && s[|s| - |tail|..] == tail
  }

  /** What is left of a stream when it is cut at its start or after a newline. */
  predicate LinesOf(s: seq<byte>, r: seq<byte>) {
    EndsWith(s, r) && (|r| < |s| ==> s[|s| - |r| - 1] == LF)
  }

  function Last(s: seq<byte>, n: nat): (t: seq<byte>) {
    if |s| <= n then s else s[|s| - n..]
  }

  /** How many digits a stream ends in. */
  function Digits(s: seq<byte>): (d: nat)
    ensures d <= |s| && AllDigits(s[|s| - d..])
    ensures d < |s| ==> !IsDigit(s[|s| - d - 1])
  {
    if s == [] || !IsDigit(s[|s| - 1]) then 0 else Digits(s[..|s| - 1]) + 1
  }

  /** The token a newline would complete here. */
  function Completed(s: seq<byte>): (t: Option<Token>) {
    if EndsWith(s, REQ) then Some(OnePage)
    else if EndsWith(s, [CR]) then Some(ReportLine)
    else if EndsInCommand(s) then Some(Pages(Decimal(Last(s, Digits(s)))))
    else None
  }

  predicate EndsInCommand(s: seq<byte>) {
    Digits(s) > 0 && EndsWith(s[..|s| - Digits(s)], STREAM)
  }

  /** Which token a newline would complete after a stream. */
  type Rule = seq<byte> -> Option<Token>

  predicate Completes(rule: Rule, s: seq<byte>, b: byte) {
    b == LF && rule(s).Some?
  }

  /** Every token in the stream, in order, wherever the reads fall. */
  function ServedBy(rule: Rule, s: seq<byte>): seq<Token> {
    if s == [] then [] else ServedBy(rule, s[..|s| - 1]) + Emitted(rule, s[..|s| - 1], s[|s| - 1])
  }

  function Emitted(rule: Rule, s: seq<byte>, b: byte): seq<Token> {
    if Completes(rule, s, b) then [rule(s).value] else []
  }

  /** How many bytes there are since the last token. */
  function Since(rule: Rule, s: seq<byte>): (n: nat)
    ensures n <= |s| && (n < |s| ==> s[|s| - n - 1] == LF)
  {
    if s == [] || Completes(rule, s[..|s| - 1], s[|s| - 1]) then 0 else Since(rule, s[..|s| - 1]) + 1
  }

  function Served(s: seq<byte>): seq<Token> {
    ServedBy(Completed, s)
  }

  function SinceToken(s: seq<byte>): nat {
    Since(Completed, s)
  }

  // ---- what the host does with it ----

  /** The unconsumed tail, and what has been served so far. */
  datatype State = State(buf: seq<byte>, served: seq<Token>)

  const Start: State := State([], [])

  function Byte(rule: Rule, h: State, b: byte): State {
    if Completes(rule, h.buf, b) then State([], h.served + [rule(h.buf).value]) else State(h.buf + [b], h.served)
  }

  /** Taking in bytes one by one, without trimming. */
  function Fed(rule: Rule, h: State, s: seq<byte>): State {
    if s == [] then h else Byte(rule, Fed(rule, h, s[..|s| - 1]), s[|s| - 1])
  }

  function Trimmed(h: State): State {
    if |h.buf| > TRIM_OVER then State(Last(h.buf, KEEP), h.served) else h
  }

  /** The state after a run of reads; each ends with the trim. */
  function Reads(rule: Rule, h: State, chunks: seq<seq<byte>>): State {
    if chunks == [] then h else Trimmed(Fed(rule, Reads(rule, h, chunks[..|chunks| - 1]), chunks[|chunks| - 1]))
  }

  function Joined(chunks: seq<seq<byte>>): seq<byte> {
    if chunks == [] then [] else Joined(chunks[..|chunks| - 1]) + chunks[|chunks| - 1]
  }

  predicate Readable(chunks: seq<seq<byte>>) {
    forall i :: 0 <= i < |chunks| ==> 0 < |chunks[i]| <= READ_MAX
  }

  /**
   Every `STREAM` command either fits in what a trim keeps, or begins so soon
   after the last token that no trim can fall inside it.
   */
  predicate Safe(s: seq<byte>) {
    s != [] ==>
      var t := s[..|s| - 1];
      Safe(t) && (s[|s| - 1] == LF ==> Kept(t))
  }

  predicate Kept(t: seq<byte>) {
    Completed(t).Some? && Completed(t).value.Pages? ==> |STREAM| + Digits(t) <= KEEP || SinceToken(t) <= TRIM_OVER
  }

  // ---- endings ----

  lemma {:induction false} DigitsOfTail(s: seq<byte>, r: seq<byte>)
    requires EndsWith(s, r)
    ensures Digits(r) == if Digits(s) <= |r| then Digits(s) else |r|
  {
    if r != [] {
      assert r[|r| - 1] == s[|s| - 1];
      assert EndsWith(s[..|s| - 1], r[..|r| - 1]);
      DigitsOfTail(s[..|s| - 1], r[..|r| - 1]);
    }
  }

  lemma {:induction false} CommandByTail(s: seq<byte>, r: seq<byte>)
    requires EndsWith(s, r)
    ensures EndsInCommand(r) <==> EndsInCommand(s) && |r| >= |STREAM| + Digits(s)
    ensures EndsInCommand(r) ==> Last(r, Digits(r)) == Last(s, Digits(s))
  {
    DigitsOfTail(s, r);
    var d, e := Digits(s), Digits(r);
    if e == d {
      SameDigits(s, r, d);
    } else {
      assert |r[..|r| - e]| == 0;
    }
  }

  lemma {:induction false} SameDigits(s: seq<byte>, r: seq<byte>, d: nat)
    requires EndsWith(s, r) && d <= |r|
    ensures EndsWith(r[..|r| - d], STREAM) <==> EndsWith(s[..|s| - d], STREAM) && |r| >= |STREAM| + d
    ensures Last(r, d) == Last(s, d)
  {
    CutTail(s, r, d);
    TailEndsWith(s[..|s| - d], r[..|r| - d], STREAM);
  }

  lemma {:induction false} CutTail(s: seq<byte>, r: seq<byte>, d: nat)
    requires EndsWith(s, r) && d <= |r|
    ensures EndsWith(s[..|s| - d], r[..|r| - d]) && Last(s, d) == Last(r, d)
  {
    var m := |s| - |r|;
    assert s[..|s| - d][m..] == s[m..][..|r| - d];
  }

  /** A tail completes nothing that the whole does not; and what it has room for it completes. */
  lemma {:induction false} CompletedByTail(s: seq<byte>, r: seq<byte>)
    requires EndsWith(s, r)
    ensures Completed(r).Some? ==> Completed(s) == Completed(r)
    ensures Completed(s).Some? && |r| >= 3 && (Completed(s).value.Pages? ==> |r| >= |STREAM| + Digits(s)) ==> Completed(r) == Completed(s)
    ensures Completed(s).Some? && Completed(s).value.Pages? && |r| < |STREAM| + Digits(s) ==> Completed(r) == None
  {
    CommandByTail(s, r);
    TailEndsWith(s, r, REQ);
    TailEndsWith(s, r, [CR]);
    Endings(s);
    Endings(r);
  }

  /** No stream ends in two kinds of token. */
  lemma {:induction false} Endings(s: seq<byte>)
    ensures Digits(s) > 0 ==> !EndsWith(s, REQ) && !EndsWith(s, [CR])
    ensures EndsWith(s, REQ) ==> !EndsWith(s, [CR])
  {
    if EndsWith(s, REQ) {
      assert s[|s| - 1] == s[|s| - 3..][2];
    }
    if EndsWith(s, [CR]) {
      assert s[|s| - 1] == s[|s| - 1..][0];
    }
  }

  lemma {:induction false} TailEndsWith(s: seq<byte>, r: seq<byte>, tail: seq<byte>)
    requires EndsWith(s, r)
    ensures EndsWith(r, tail) <==> EndsWith(s, tail) && |tail| <= |r|
  {
    if |tail| <= |r| {
      assert r[|r| - |tail|..] == s[|s| - |tail|..];
    }
  }

  /** No token reaches back over a newline. */
  lemma {:induction false} CompletedAfterNewline(s: seq<byte>, r: seq<byte>)
    requires LinesOf(s, r)
    ensures Completed(s) == Completed(r)
  {
    CompletedByTail(s, r);
    if |r| < |s| {
      ShortEnding(s, r, REQ);
      ShortEnding(s, r, [CR]);
      CommandEnding(s, r);
      CommandByTail(s, r);
      Endings(s);
      TailEndsWith(s, r, REQ);
      TailEndsWith(s, r, [CR]);
    }
  }

  lemma {:induction false} ShortEnding(s: seq<byte>, r: seq<byte>, tail: seq<byte>)
    requires |r| < |s| && s[|s| - |r| - 1] == LF && LF !in tail
    ensures EndsWith(s, tail) ==> |r| >= |tail|
  {
    if EndsWith(s, tail) {
      forall k | |s| - |tail| <= k < |s| ensures s[k] != LF {
        assert s[k] == s[|s| - |tail|..][k - (|s| - |tail|)];
        assert s[k] in tail;
      }
    }
  }

  lemma {:induction false} CommandEnding(s: seq<byte>, r: seq<byte>)
    requires |r| < |s| && s[|s| - |r| - 1] == LF
    ensures EndsInCommand(s) ==> |r| >= |STREAM| + Digits(s)
  {
    var d := Digits(s);
    if EndsInCommand(s) {
      assert forall k :: |s| - d <= k < |s| ==> s[k] == s[|s| - d..][k - (|s| - d)];
      ShortEnding(s[..|s| - d], r[..|r| - d], STREAM);
    }
  }

  // ---- feeding ----

  lemma {:induction false} FedConcat(rule: Rule, h: State, s: seq<byte>, t: seq<byte>)
    ensures Fed(rule, h, s + t) == Fed(rule, Fed(rule, h, s), t)
  {
    if t == [] {
      assert s + t == s;
    } else {
      FedConcat(rule, h, s, t[..|t| - 1]);
      assert (s + t)[..|s + t| - 1] == s + t[..|t| - 1];
    }
  }

  /** No newline before `n` completes a token. */
  ghost predicate QuietTo(rule: Rule, s: seq<byte>, n: int)
    requires n <= |s|
  {
    forall k {:trigger rule(s[..k])} :: 0 <= k < n && s[k] == LF ==> rule(s[..k]) == None
  }

  lemma {:induction false} QuietUpTo(rule: Rule, served: seq<Token>, s: seq<byte>, n: nat)
    requires n <= |s| && QuietTo(rule, s, |s|)
    ensures Fed(rule, State([], served), s[..n]) == State(s[..n], served)
  {
    if n > 0 {
      QuietUpTo(rule, served, s, n - 1);
      QuietAt(rule, s, n - 1);
      QuietByte(rule, served, s[..n - 1], s[n - 1]);
      LongerPrefix(s, n - 1);
    }
  }

  lemma {:induction false} QuietAt(rule: Rule, s: seq<byte>, k: nat)
    requires k < |s| && QuietTo(rule, s, |s|)
    ensures s[k] == LF ==> rule(s[..k]) == None
  {
  }

  lemma {:induction false} LongerPrefix(s: seq<byte>, k: nat)
    requires k < |s|
    ensures s[..k + 1] == s[..k] + [s[k]]
  {
  }

  lemma {:induction false} QuietStream(rule: Rule, served: seq<Token>, s: seq<byte>)
    requires QuietTo(rule, s, |s|)
    ensures Fed(rule, State([], served), s) == State(s, served)
  {
    QuietUpTo(rule, served, s, |s|);
    assert s[..|s|] == s;
  }

  lemma {:induction false} QuietByte(rule: Rule, served: seq<Token>, t: seq<byte>, b: byte)
    requires Fed(rule, State([], served), t) == State(t, served) && (b == LF ==> rule(t) == None)
    ensures Fed(rule, State([], served), t + [b]) == State(t + [b], served)
  {
    FedByte(rule, State([], served), t, b);
  }

  lemma {:induction false} QuietPrefix(rule: Rule, s: seq<byte>, n: nat)
    requires n <= |s| && QuietTo(rule, s, n)
    ensures QuietTo(rule, s[..n], n)
  {
    forall k | 0 <= k < n && s[..n][k] == LF ensures rule(s[..n][..k]) == None {
      assert s[..n][..k] == s[..k];
    }
  }

  /** The first newline that completes a token is the one at `e - 1`. */
  ghost predicate FirstAt(rule: Rule, s: seq<byte>, e: int, t: Token) {
    0 < e <= |s| && s[e - 1] == LF && rule(s[..e - 1]) == Some(t) && QuietTo(rule, s, e - 1)
  }

  /** Going over a quiet tail again changes nothing. */
  lemma {:induction false} FedOnto(rule: Rule, h: State, t: seq<byte>)
    requires QuietTo(rule, h.buf, |h.buf|)
    ensures Fed(rule, State([], h.served), h.buf + t) == Fed(rule, h, t)
  {
    QuietStream(rule, h.served, h.buf);
    FedConcat(rule, State([], h.served), h.buf, t);
  }

  /** The first token is served first, and what follows it stands alone. */
  lemma {:induction false} FirstToken(rule: Rule, served: seq<Token>, s: seq<byte>, e: nat, t: Token)
    requires FirstAt(rule, s, e, t)
    ensures Fed(rule, State([], served), s) == Fed(rule, State([], served + [t]), s[e..])
  {
    QuietPrefix(rule, s, e - 1);
    QuietStream(rule, served, s[..e - 1]);
    FedToken(rule, served, s[..e - 1], t);
    Parts(s, e);
    FedConcat(rule, State([], served), s[..e - 1] + [LF], s[e..]);
  }

  lemma {:induction false} Parts(s: seq<byte>, e: nat)
    requires 0 < e <= |s|
    ensures s == (s[..e - 1] + [s[e - 1]]) + s[e..]
  {
  }

  lemma {:induction false} FedToken(rule: Rule, served: seq<Token>, p: seq<byte>, t: Token)
    requires Fed(rule, State([], served), p) == State(p, served) && rule(p) == Some(t)
    ensures Fed(rule, State([], served), p + [LF]) == State([], served + [t])
  {
    FedByte(rule, State([], served), p, LF);
    ByteCompletes(rule, State(p, served), t);
  }

  lemma {:induction false} FedByte(rule: Rule, h: State, s: seq<byte>, b: byte)
    ensures Fed(rule, h, s + [b]) == Byte(rule, Fed(rule, h, s), b)
  {
    assert (s + [b])[..|s|] == s;
  }

  lemma {:induction false} ByteCompletes(rule: Rule, h: State, t: Token)
    requires rule(h.buf) == Some(t)
    ensures Byte(rule, h, LF) == State([], h.served + [t])
  {
  }

  // ---- the searches ----

  ghost predicate At(s: seq<byte>, i: int, pat: seq<byte>) {
    0 <= i <= i + |pat| <= |s| && s[i..i + |pat|] == pat
  }

  /** The least index, from `from` on, where a pattern sits; -1 if there is none. */
  method Find(s: seq<byte>, pat: seq<byte>, from: nat) returns (i: int)
    ensures i == -1 || (from <= i && At(s, i, pat))
    ensures forall k :: from <= k && At(s, k, pat) ==> 0 <= i <= k
  {
    i := from;
    while i + |pat| <= |s|
      invariant from <= i
      invariant forall k :: from <= k < i ==> !At(s, k, pat)
    {
      if s[i..i + |pat|] == pat {
        return;
      }
      i := i + 1;
    }
    i := -1;
  }

  ghost predicate StreamAt(s: seq<byte>, i: int, e: int) {
    && 0 <= i < i + |STREAM| + 1 < e <= |s|
    && At(s, i, STREAM) && AllDigits(s[i + |STREAM|..e - 1]) && s[e - 1] == LF
  }

  lemma {:induction false} DigitRun(s: seq<byte>, m: nat)
    requires m <= |s| && AllDigits(s[m..]) && (m > 0 ==> !IsDigit(s[m - 1]))
    ensures Digits(s) == |s| - m
  {
    if m < |s| {
      assert s[m..][|s| - m - 1] == s[|s| - 1];
      var t := s[..|s| - 1];
      assert forall k :: 0 <= k < |t| - m ==> t[m..][k] == s[m..][k];
      DigitRun(t, m);
    }
  }

  /** A well-formed command is a completed token, and the only way to complete one. */
  lemma {:induction false} StreamCompletes(s: seq<byte>, i: int, e: int)
    requires StreamAt(s, i, e)
    ensures Completed(s[..e - 1]) == Some(Pages(Decimal(s[i + |STREAM|..e - 1])))
  {
    var t, m := s[..e - 1], i + |STREAM|;
    assert t[m..] == s[m..e - 1];
    assert s[i..m][6] == s[m - 1];
    DigitRun(t, m);
    Endings(t);
    assert t[..m][i..] == s[i..m];
  }

  lemma {:induction false} CompletedStarts(s: seq<byte>, k: nat) returns (i: int)
    requires k < |s| && s[k] == LF && Completed(s[..k]).Some?
    ensures 0 <= i < k && (At(s, i, REQUEST) || At(s, i, REPORT) || StreamAt(s, i, k + 1))
  {
    var t := s[..k];
    if EndsWith(t, REQ) {
      i := EndingStarts(s, k, REQ, REQUEST);
    } else if EndsWith(t, [CR]) {
      i := EndingStarts(s, k, [CR], REPORT);
    } else {
      i := CommandStarts(s, k);
    }
  }

  lemma {:induction false} EndingStarts(s: seq<byte>, k: nat, tail: seq<byte>, token: seq<byte>) returns (i: int)
    requires k < |s| && s[k] == LF && EndsWith(s[..k], tail) && token == tail + [LF] && tail != []
    ensures 0 <= i < k && At(s, i, token)
  {
    i := k - |tail|;
    assert s[i..k + 1] == s[..k][i..] + [s[k]];
  }

  lemma {:induction false} CommandStarts(s: seq<byte>, k: nat) returns (i: int)
    requires k < |s| && s[k] == LF && EndsInCommand(s[..k])
    ensures 0 <= i < k && StreamAt(s, i, k + 1)
  {
    var t := s[..k];
    var m := k - Digits(t);
    i := m - |STREAM|;
    assert t[..m][i..] == s[i..m];
    assert s[m..k] == t[m..];
  }

  ghost predicate NoStreamBefore(s: seq<byte>, i: int) {
    forall k, e :: StreamAt(s, k, e) ==> i <= k
  }

  ghost predicate NoStream(s: seq<byte>) {
    forall k, e :: !StreamAt(s, k, e)
  }

  /** The first well-formed command, or -1 when there is none to act on yet. */
  method FindStream(s: seq<byte>) returns (start: int, end: int, n: nat)
    ensures start == -1 || (StreamAt(s, start, end) && n == Decimal(s[start + |STREAM|..end - 1]))
    ensures if start == -1 then NoStream(s) else NoStreamBefore(s, start)
  {
    var at := FirstWord(s, 0);
    while at >= 0
      invariant if at < 0 then NoStream(s) else At(s, at, STREAM) && NoStreamBefore(s, at)
      decreases if at < 0 then 0 else |s| - at + 1
    {
      var prose, a, e, m := CommandAt(s, at);
      if !prose {
        return a, e, m;
      }
      at := FirstWord(s, at + |STREAM|);
    }
    return -1, 0, 0;
  }

  method FirstWord(s: seq<byte>, i: nat) returns (at: int)
    requires NoStreamBefore(s, i)
    ensures if at < 0 then NoStream(s) else i <= at && At(s, at, STREAM) && NoStreamBefore(s, at)
  {
    at := Find(s, STREAM, i);
    if at < 0 {
      NoMore(s, i);
    } else {
      FromHere(s, i, at);
    }
  }

  /** A command here, none at all, or a literal word in prose to be passed over. */
  method CommandAt(s: seq<byte>, at: nat) returns (prose: bool, start: int, end: int, n: nat)
    requires At(s, at, STREAM) && NoStreamBefore(s, at)
    ensures prose ==> start == -1 && NoStreamBefore(s, at + |STREAM|)
    ensures !prose ==> start == -1 || (StreamAt(s, start, end) && n == Decimal(s[start + |STREAM|..end - 1]))
    ensures !prose ==> if start == -1 then NoStream(s) else start == at && NoStreamBefore(s, start)
  {
    var j := Find(s, [LF], at);
    if j < 0 {
      NoCommandWithout(s, at);
      return false, -1, 0, 0;
    }
    NewlineAfter(s, at, j);
    var arg := s[at + |STREAM|..j];
    if arg != [] && AllDigits(arg) {
      Aligned(s, j, [LF]);
      return false, at, j + 1, Decimal(arg);
    }
    NoCommandHere(s, at, j);
    return true, -1, 0, 0;
  }

  lemma {:induction false} NoMore(s: seq<byte>, i: nat)
    requires NoStreamBefore(s, i) && forall k :: i <= k ==> !At(s, k, STREAM)
    ensures NoStream(s)
  {
  }

  lemma {:induction false} Aligned(s: seq<byte>, i: int, pat: seq<byte>)
    requires At(s, i, pat)
    ensures forall k :: i <= k < i + |pat| ==> s[k] == pat[k - i]
  {
    assert forall k :: i <= k < i + |pat| ==> s[k] == s[i..i + |pat|][k - i];
  }

  lemma {:induction false} NewlineAfter(s: seq<byte>, at: nat, j: nat)
    requires At(s, at, STREAM) && at <= j && At(s, j, [LF])
    ensures at + |STREAM| <= j
  {
    Aligned(s, at, STREAM);
    Aligned(s, j, [LF]);
    assert s[j] == LF;
  }

  /** A command starts with its word, so none starts before the first of those. */
  lemma {:induction false} FromHere(s: seq<byte>, i: nat, at: nat)
    requires NoStreamBefore(s, i) && forall k :: i <= k < at ==> !At(s, k, STREAM)
    ensures NoStreamBefore(s, at)
  {
  }

  lemma {:induction false} NoCommandWithout(s: seq<byte>, at: nat)
    requires forall k :: at <= k ==> !At(s, k, [LF])
    requires NoStreamBefore(s, at)
    ensures NoStream(s)
  {
    forall k, e | StreamAt(s, k, e) ensures false {
      assert At(s, e - 1, [LF]);
    }
  }

  /** A command does not overlap itself, and must run to its own newline. */
  lemma {:induction false} NoCommandHere(s: seq<byte>, at: nat, j: nat)
    requires At(s, at, STREAM) && at + |STREAM| <= j && At(s, j, [LF])
    requires forall k :: at <= k < j ==> !At(s, k, [LF])
    requires j == at + |STREAM| || !AllDigits(s[at + |STREAM|..j])
    requires NoStreamBefore(s, at)
    ensures NoStreamBefore(s, at + |STREAM|)
  {
    forall k, e | StreamAt(s, k, e) ensures at + |STREAM| <= k {
      Aligned(s, at, STREAM);
      Aligned(s, k, STREAM);
      Aligned(s, j, [LF]);
      NoNewlineIn(s, k, e);
      assert At(s, e - 1, [LF]);
      assert s[k] == STREAM[0];
      assert s[j] == LF;
      assert forall x :: 1 <= x < 7 ==> STREAM[x] != STREAM[0];
      assert k == at ==> e - 1 == j;
    }
  }

  lemma {:induction false} NoNewlineIn(s: seq<byte>, i: int, e: int)
    requires StreamAt(s, i, e)
    ensures forall k :: i <= k < e - 1 ==> s[k] != LF
  {
    Aligned(s, i, STREAM);
    assert forall k :: i + |STREAM| <= k < e - 1 ==> s[k] == s[i + |STREAM|..e - 1][k - i - |STREAM|];
  }

  /** The host's working state: the unconsumed tail and what has been served so far. */
  class Host {
    var buf: seq<byte>
    var served: seq<Token>

    constructor ()
      ensures Now() == Start
    {
      buf, served := [], [];
    }

    ghost function Now(): State
      reads this
    {
      State(buf, served)
    }

    /** Whichever token starts earliest, if there is one. */
    method Next() returns (found: bool, end: int, t: Token)
      ensures found ==> FirstAt(Completed, buf, end, t)
      ensures !found ==> QuietTo(Completed, buf, |buf|)
    {
      hide Completed, QuietTo, FirstAt;
      var iReq := Find(buf, REQUEST, 0);
      var iEol := Find(buf, REPORT, 0);
      var iStr, strEnd, strN := FindStream(buf);
      if iReq < 0 && iEol < 0 && iStr < 0 {
        NoTokens(buf);
        return false, 0, ReportLine;
      }
      if 0 <= iStr && (iReq < 0 || iStr <= iReq) && (iEol < 0 || iStr <= iEol) {
        StreamFirst(buf, iStr, strEnd, strN);
        return true, strEnd, Pages(strN);
      } else if 0 <= iReq && (iEol < 0 || iReq <= iEol) {
        RequestFirst(buf, iReq);
        return true, iReq + |REQUEST|, OnePage;
      } else {
        ReportFirst(buf, iEol);
        return true, iEol + |REPORT|, ReportLine;
      }
    }

    method OnRead(chunk: seq<byte>)
      requires QuietTo(Completed, buf, |buf|)
      modifies this
      ensures QuietTo(Completed, buf, |buf|)
      ensures Now() == Trimmed(Fed(Completed, old(Now()), chunk))
    {
      FedOnto(Completed, Now(), chunk);
      buf := buf + chunk;
      Drain();
      if |buf| > TRIM_OVER {
        TailIsQuiet(buf, |buf| - KEEP);
        buf := buf[|buf| - KEEP..];
      }
    }

    /** Consumes whole tokens, earliest first, until there are none. */
    method Drain()
      modifies this
      ensures QuietTo(Completed, buf, |buf|)
      ensures Now() == Fed(Completed, State([], old(served)), old(buf))
    {
      ghost var all, before := buf, served;
      while true
        invariant Fed(Completed, State([], served), buf) == Fed(Completed, State([], before), all)
        decreases |buf|
      {
        var found, end, t := Next();
        if !found {
          QuietStream(Completed, served, buf);
          break;
        }
        FirstToken(Completed, served, buf, end, t);
        served := served + [t];
        buf := buf[end..];
      }
    }

    /** The main loop: reads until the port closes. */
    method Serve(chunks: seq<seq<byte>>)
      requires Now() == Start
      modifies this
      ensures Now() == Reads(Completed, Start, chunks)
    {
      var i := 0;
      while i < |chunks|
        invariant i <= |chunks| && QuietTo(Completed, buf, |buf|) && Now() == Reads(Completed, Start, chunks[..i])
      {
        OnRead(chunks[i]);
        i := i + 1;
        assert chunks[..i][..i - 1] == chunks[..i - 1];
      }
      assert chunks[..i] == chunks;
    }
  }

  lemma {:induction false} TailIsQuiet(s: seq<byte>, m: nat)
    requires m <= |s| && QuietTo(Completed, s, |s|)
    ensures QuietTo(Completed, s[m..], |s| - m)
  {
    var r := s[m..];
    forall k | 0 <= k < |r| && r[k] == LF ensures Completed(r[..k]) == None {
      assert s[..m + k][m..] == r[..k];
      CompletedByTail(s[..m + k], r[..k]);
    }
  }

  lemma {:induction false} NoTokens(s: seq<byte>)
    requires forall k :: 0 <= k ==> !At(s, k, REQUEST) && !At(s, k, REPORT)
    requires NoStream(s)
    ensures QuietTo(Completed, s, |s|)
  {
    forall k | 0 <= k < |s| && s[k] == LF ensures Completed(s[..k]) == None {
      if Completed(s[..k]).Some? {
        var i := CompletedStarts(s, k);
        assert false;
      }
    }
  }

  /** No token of any kind starts before `i`. */
  ghost predicate NoneBefore(s: seq<byte>, i: int) {
    && (forall k :: 0 <= k < i ==> !At(s, k, REQUEST) && !At(s, k, REPORT))
    && NoStreamBefore(s, i)
  }

  lemma {:induction false} StreamFirst(s: seq<byte>, i: int, e: int, n: nat)
    requires StreamAt(s, i, e) && n == Decimal(s[i + |STREAM|..e - 1]) && NoneBefore(s, i)
    ensures FirstAt(Completed, s, e, Pages(n))
  {
    StreamCompletes(s, i, e);
    NoNewlineIn(s, i, e);
    Earliest(s, i, e, Pages(n));
  }

  lemma {:induction false} RequestFirst(s: seq<byte>, i: int)
    requires At(s, i, REQUEST) && NoneBefore(s, i)
    ensures FirstAt(Completed, s, i + |REQUEST|, OnePage)
  {
    Aligned(s, i, REQUEST);
    var t := s[..i + 3];
    assert t[i..] == REQ;
    Earliest(s, i, i + |REQUEST|, OnePage);
  }

  lemma {:induction false} ReportFirst(s: seq<byte>, i: int)
    requires At(s, i, REPORT) && NoneBefore(s, i)
    ensures FirstAt(Completed, s, i + |REPORT|, ReportLine)
  {
    Aligned(s, i, REPORT);
    var t := s[..i + 1];
    assert t[i..] == [CR];
    Endings(t);
    Earliest(s, i, i + |REPORT|, ReportLine);
  }

  /** A token that runs to its own newline is the first when none starts before it. */
  lemma {:induction false} Earliest(s: seq<byte>, i: int, e: int, t: Token)
    requires 0 <= i < e <= |s| && s[e - 1] == LF && Completed(s[..e - 1]) == Some(t)
    requires forall k :: i <= k < e - 1 ==> s[k] != LF
    requires NoneBefore(s, i)
    ensures FirstAt(Completed, s, e, t)
  {
    forall k | 0 <= k < e - 1 && s[k] == LF ensures Completed(s[..k]) == None {
      if Completed(s[..k]).Some? {
        var a := CompletedStarts(s, k);
        assert false;
      }
    }
  }
}
