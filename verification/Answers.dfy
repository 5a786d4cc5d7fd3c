/**
 What of the frames a client receives ends an exchange: the first of the wanted type for its
 page, or failing that the first refusal of its page. The client looks at the frames it holds
 one at a time, as they come; this relates its looks to everything received.
 */
module Answers {
  import opened Wrappers
  import opened Sequences
  import opened Frames
  import opened LinkModel

  /** The first frame about this page. */
  function FirstFor(fs: seq<Frame>, page: nat): (f: Option<Frame>)
    ensures f.Some? ==> f.value in fs && FramePage(f.value) == Some(page)
    ensures f.None? <==> forall g :: g in fs ==> FramePage(g) != Some(page)
  {
    if fs == [] then None else if FramePage(fs[0]) == Some(page) then Some(fs[0]) else FirstFor(fs[1..], page)
  }

  function AnswerIn(c: Op, heard: seq<Frame>): Option<Frame> {
    var answer := FirstFor(OfType(heard, Want(c)), c.page);
    if answer.Some? then answer else FirstFor(OfType(heard, TY_ERR), c.page)
  }

  /** The page of the last frame, of those that have one. */
  function LastPage(fs: seq<Frame>, none: nat): nat {
    if fs == [] || FramePage(fs[|fs| - 1]).None? then none else FramePage(fs[|fs| - 1]).value
  }

  // ---- one look ----

  /** What one look at the held frames comes to. */
  datatype Turn = Answered(frame: Frame) | Refused(code: nat) | Mismatch(page: nat) | Stray | Nothing

  function Look(c: Op, held: seq<Frame>): Turn {
    if Holds(held, Want(c)) then
      var f := First(held, Want(c));
      if f.page == c.page then Answered(f) else Mismatch(f.page)
    else if Holds(held, TY_ERR) then
      var f := First(held, TY_ERR);
      if f.page == c.page then Refused(f.code) else Stray
    else Nothing
  }

  function Left(c: Op, held: seq<Frame>): seq<Frame> {
    if Holds(held, Want(c)) then WithoutFirst(held, Want(c))
    else if Holds(held, TY_ERR) then WithoutFirst(held, TY_ERR) else held
  }

  // ---- everything received since a purge, and what looks have left of it ----

  /** Of the frames of a type, the first `n` are gone and none was about the page. */
  ghost predicate SiftedOf(heard: seq<Frame>, held: seq<Frame>, ty: nat, page: nat, n: nat) {
    var all := OfType(heard, ty);
    n <= |all| && OfType(held, ty) == all[n..] && FirstFor(all[..n], page) == None
  }

  ghost predicate RefusalsSifted(heard: seq<Frame>, held: seq<Frame>, page: nat) {
    exists e: nat :: SiftedOf(heard, held, TY_ERR, page, e)
  }

  /** `w` answers for other pages are gone, the last about `last`, and so may some refusals be. */
  ghost predicate Sifted(c: Op, base: seq<Frame>, heard: seq<Frame>, held: seq<Frame>, w: int, last: nat, none: nat) {
    && w >= 0 && SiftedOf(heard, held, Want(c), c.page, w) && LastPage(OfType(heard, Want(c))[..w], none) == last
    && RefusalsSifted(heard, held, c.page)
    && Purged(held) == Purged(base + PageFrames(heard))
  }

  lemma {:induction false} FirstForConcat(a: seq<Frame>, b: seq<Frame>, page: nat)
    ensures FirstFor(a + b, page) == if FirstFor(a, page).Some? then FirstFor(a, page) else FirstFor(b, page)
  {
    if a == [] {
      assert a + b == b;
    } else {
      FirstForConcat(a[1..], b, page);
      ConcatHead(a, b);
    }
  }

  lemma {:induction false} SiftMoreOf(heard: seq<Frame>, held: seq<Frame>, ty: nat, page: nat, n: nat, more: seq<Frame>)
    requires SiftedOf(heard, held, ty, page, n) && ty != TY_CON_OUT && ty != TY_CON_IN
    ensures SiftedOf(heard + more, held + PageFrames(more), ty, page, n)
    ensures OfType(heard + more, ty)[..n] == OfType(heard, ty)[..n]
  {
    OfTypeConcat(heard, more, ty);
    OfTypeConcat(held, PageFrames(more), ty);
    PageFramesOfType(more, ty);
    var all, next := OfType(heard, ty), OfType(more, ty);
    assert (all + next)[n..] == all[n..] + next && (all + next)[..n] == all[..n];
  }

  lemma {:induction false} SiftSkipOf(heard: seq<Frame>, held: seq<Frame>, ty: nat, page: nat, n: nat)
    requires SiftedOf(heard, held, ty, page, n) && Holds(held, ty) && FramePage(First(held, ty)) != Some(page)
    ensures SiftedOf(heard, WithoutFirst(held, ty), ty, page, n + 1) && OfType(heard, ty)[n] == First(held, ty)
  {
    FirstOfType(held, ty);
    var all := OfType(heard, ty);
    assert all[n] == all[n..][0] && all[n + 1..] == all[n..][1..] && all[..n + 1] == all[..n] + [all[n]];
    FirstForConcat(all[..n], [all[n]], page);
  }

  lemma {:induction false} SiftHitOf(heard: seq<Frame>, held: seq<Frame>, ty: nat, page: nat, n: nat)
    requires SiftedOf(heard, held, ty, page, n) && Holds(held, ty) && FramePage(First(held, ty)) == Some(page)
    ensures FirstFor(OfType(heard, ty), page) == Some(First(held, ty))
  {
    FirstOfType(held, ty);
    var all := OfType(heard, ty);
    assert all == all[..n] + all[n..];
    FirstForConcat(all[..n], all[n..], page);
  }

  lemma {:induction false} SiftDoneOf(heard: seq<Frame>, held: seq<Frame>, ty: nat, page: nat, n: nat)
    requires SiftedOf(heard, held, ty, page, n) && !Holds(held, ty)
    ensures n == |OfType(heard, ty)| && FirstFor(OfType(heard, ty), page) == None
  {
    FirstOfType(held, ty);
    var all := OfType(heard, ty);
    assert all[..n] == all;
  }

  // ---- purging ----

  lemma {:induction false} NotOfTypeSwaps(fs: seq<Frame>, a: nat, b: nat)
    ensures NotOfType(NotOfType(fs, a), b) == NotOfType(NotOfType(fs, b), a)
  {
    if fs != [] {
      NotOfTypeSwaps(fs[1..], a, b);
      var one, rest := [fs[0]], fs[1..];
      NotOfTypeConcat(if TypeByte(fs[0]) != a then one else [], NotOfType(rest, a), b);
      NotOfTypeConcat(if TypeByte(fs[0]) != b then one else [], NotOfType(rest, b), a);
    }
  }

  lemma {:induction false} PurgedConcat(a: seq<Frame>, b: seq<Frame>)
    ensures Purged(a + b) == Purged(a) + Purged(b)
  {
    NotOfTypeConcat(a, b, TY_READ_RESP);
    NotOfTypeConcat(NotOfType(a, TY_READ_RESP), NotOfType(b, TY_READ_RESP), TY_WRITE_ACK);
    NotOfTypeConcat(NotOfType(NotOfType(a, TY_READ_RESP), TY_WRITE_ACK), NotOfType(NotOfType(b, TY_READ_RESP), TY_WRITE_ACK), TY_ERR);
  }

  /** Removing a response leaves everything else as it was. */
  lemma {:induction false} PurgedWithout(fs: seq<Frame>, ty: nat)
    requires Holds(fs, ty) && (ty == TY_READ_RESP || ty == TY_WRITE_ACK || ty == TY_ERR)
    ensures Purged(WithoutFirst(fs, ty)) == Purged(fs)
  {
    var rest := WithoutFirst(fs, ty);
    WithoutFirstOthers(fs, ty, 0);
    PurgedInAnyOrder(fs, ty);
    PurgedInAnyOrder(rest, ty);
  }

  lemma {:induction false} PurgedInAnyOrder(fs: seq<Frame>, ty: nat)
    requires ty == TY_READ_RESP || ty == TY_WRITE_ACK || ty == TY_ERR
    ensures ty == TY_WRITE_ACK ==> Purged(fs) == NotOfType(NotOfType(NotOfType(fs, ty), TY_READ_RESP), TY_ERR)
    ensures ty == TY_ERR ==> Purged(fs) == NotOfType(NotOfType(NotOfType(fs, ty), TY_READ_RESP), TY_WRITE_ACK)
  {
    NotOfTypeSwaps(fs, TY_READ_RESP, TY_WRITE_ACK);
    NotOfTypeSwaps(NotOfType(fs, TY_READ_RESP), TY_WRITE_ACK, TY_ERR);
    NotOfTypeSwaps(fs, TY_READ_RESP, TY_ERR);
  }

  /** After a purge nothing held can be an answer, and another purge would remove nothing. */
  lemma {:induction false} PurgedClear(fs: seq<Frame>, ty: nat)
    requires ty == TY_READ_RESP || ty == TY_WRITE_ACK || ty == TY_ERR
    ensures OfType(Purged(fs), ty) == []
  {
    PurgedMembers(fs);
    NoneToRemove(Purged(fs), ty);
  }

  lemma {:induction false} PurgedAgain(fs: seq<Frame>)
    ensures Purged(Purged(fs)) == Purged(fs)
  {
    PurgedMembers(fs);
    var p := Purged(fs);
    NoneToRemove(p, TY_READ_RESP);
    NoneToRemove(p, TY_WRITE_ACK);
    NoneToRemove(p, TY_ERR);
  }

  lemma {:induction false} NoneToRemove(fs: seq<Frame>, ty: nat)
    requires forall f :: f in fs ==> TypeByte(f) != ty
    ensures NotOfType(fs, ty) == fs && OfType(fs, ty) == []
  {
    if fs != [] {
      NoneToRemove(fs[1..], ty);
    }
  }

  // ---- the looks of one wait ----

  lemma {:induction false} SiftStart(c: Op, base: seq<Frame>, none: nat)
    ensures Sifted(c, Purged(base), [], Purged(base), 0, none, none)
  {
    PurgedClear(base, Want(c));
    PurgedClear(base, TY_ERR);
    assert SiftedOf([], Purged(base), TY_ERR, c.page, 0);
    assert Purged(base) + PageFrames([]) == Purged(base);
  }

  lemma {:induction false} SiftMore(c: Op, base: seq<Frame>, heard: seq<Frame>, held: seq<Frame>, w: int, last: nat, none: nat, more: seq<Frame>)
    requires Sifted(c, base, heard, held, w, last, none)
    ensures Sifted(c, base, heard + more, held + PageFrames(more), w, last, none)
  {
    SiftMoreOf(heard, held, Want(c), c.page, w, more);
    var e: nat :| SiftedOf(heard, held, TY_ERR, c.page, e);
    SiftMoreOf(heard, held, TY_ERR, c.page, e, more);
    PageFramesConcat(heard, more);
    Reassociate(base, PageFrames(heard), PageFrames(more));
    PurgedConcat(held, PageFrames(more));
    PurgedConcat(base + PageFrames(heard), PageFrames(more));
  }

  lemma {:induction false} LookAnswered(c: Op, base: seq<Frame>, heard: seq<Frame>, held: seq<Frame>, w: int, last: nat, none: nat)
    requires Sifted(c, base, heard, held, w, last, none) && Look(c, held).Answered?
    ensures AnswerIn(c, heard) == Some(Look(c, held).frame) && Purged(Left(c, held)) == Purged(base + PageFrames(heard))
  {
    SiftHitOf(heard, held, Want(c), c.page, w);
    PurgedWithout(held, Want(c));
  }

  lemma {:induction false} LookMismatched(c: Op, base: seq<Frame>, heard: seq<Frame>, held: seq<Frame>, w: int, last: nat, none: nat)
    requires Sifted(c, base, heard, held, w, last, none) && Look(c, held).Mismatch?
    ensures Sifted(c, base, heard, Left(c, held), w + 1, Look(c, held).page, none)
  {
    SiftSkipOf(heard, held, Want(c), c.page, w);
    RefusalsStay(heard, held, Want(c), c.page);
    PurgedWithout(held, Want(c));
  }

  lemma {:induction false} RefusalsStay(heard: seq<Frame>, held: seq<Frame>, ty: nat, page: nat)
    requires RefusalsSifted(heard, held, page) && Holds(held, ty) && ty != TY_ERR
    ensures RefusalsSifted(heard, WithoutFirst(held, ty), page)
  {
    WithoutFirstOthers(held, ty, TY_ERR);
    var e: nat :| SiftedOf(heard, held, TY_ERR, page, e);
    assert SiftedOf(heard, WithoutFirst(held, ty), TY_ERR, page, e);
  }

  lemma {:induction false} NoneWanted(c: Op, base: seq<Frame>, heard: seq<Frame>, held: seq<Frame>, w: int, last: nat, none: nat)
    requires Sifted(c, base, heard, held, w, last, none) && !Holds(held, Want(c))
    ensures FirstFor(OfType(heard, Want(c)), c.page) == None && Strays(c, heard, w, last, none)
  {
    SiftDoneOf(heard, held, Want(c), c.page, w);
    var all := OfType(heard, Want(c));
    assert all[..w] == all;
  }

  lemma {:induction false} LookRefused(c: Op, base: seq<Frame>, heard: seq<Frame>, held: seq<Frame>, w: int, last: nat, none: nat)
    requires Sifted(c, base, heard, held, w, last, none) && Look(c, held).Refused?
    ensures AnswerIn(c, heard) == Some(Err(Look(c, held).code, c.page)) && Purged(Left(c, held)) == Purged(base + PageFrames(heard))
  {
    NoneWanted(c, base, heard, held, w, last, none);
    RefusalHeard(heard, held, c.page);
    IsRefusal(First(held, TY_ERR));
    PurgedWithout(held, TY_ERR);
  }

  lemma {:induction false} IsRefusal(f: Frame)
    requires TypeByte(f) == TY_ERR
    ensures f == Err(f.code, f.page) && FramePage(f) == Some(f.page)
  {
  }

  lemma {:induction false} RefusalHeard(heard: seq<Frame>, held: seq<Frame>, page: nat)
    requires RefusalsSifted(heard, held, page) && Holds(held, TY_ERR) && FramePage(First(held, TY_ERR)) == Some(page)
    ensures FirstFor(OfType(heard, TY_ERR), page) == Some(First(held, TY_ERR))
  {
    var e: nat :| SiftedOf(heard, held, TY_ERR, page, e);
    SiftHitOf(heard, held, TY_ERR, page, e);
  }

  lemma {:induction false} LookStray(c: Op, base: seq<Frame>, heard: seq<Frame>, held: seq<Frame>, w: int, last: nat, none: nat)
    requires Sifted(c, base, heard, held, w, last, none) && Look(c, held).Stray?
    ensures Sifted(c, base, heard, Left(c, held), w, last, none)
  {
    var e: nat :| SiftedOf(heard, held, TY_ERR, c.page, e);
    SiftSkipOf(heard, held, TY_ERR, c.page, e);
    WithoutFirstOthers(held, TY_ERR, Want(c));
    PurgedWithout(held, TY_ERR);
  }

  lemma {:induction false} LookNothing(c: Op, base: seq<Frame>, heard: seq<Frame>, held: seq<Frame>, w: int, last: nat, none: nat)
    requires Sifted(c, base, heard, held, w, last, none) && Look(c, held).Nothing?
    ensures AnswerIn(c, heard) == None && Strays(c, heard, w, last, none)
  {
    NoneWanted(c, base, heard, held, w, last, none);
    var e: nat :| SiftedOf(heard, held, TY_ERR, c.page, e);
    SiftDoneOf(heard, held, TY_ERR, c.page, e);
  }

  // ---- attempts in a row ----

  /** All that `mismatched` and `last` say of what was received. */
  ghost predicate Strays(c: Op, heard: seq<Frame>, mismatched: int, last: nat, none: nat) {
    mismatched == |OfType(heard, Want(c))| && last == LastPage(OfType(heard, Want(c)), none)
  }

  /** Attempts that were not answered change nothing about the answer of the next. */
  lemma {:induction false} LaterAttempt(c: Op, heard: seq<Frame>, more: seq<Frame>)
    requires AnswerIn(c, heard) == None
    ensures AnswerIn(c, heard + more) == AnswerIn(c, more)
  {
    OfTypeConcat(heard, more, Want(c));
    OfTypeConcat(heard, more, TY_ERR);
    FirstForConcat(OfType(heard, Want(c)), OfType(more, Want(c)), c.page);
    FirstForConcat(OfType(heard, TY_ERR), OfType(more, TY_ERR), c.page);
  }

  lemma {:induction false} LaterStrays(c: Op, heard: seq<Frame>, mismatched: int, last: nat, none: nat, more: seq<Frame>, further: int, now: nat)
    requires Strays(c, heard, mismatched, last, none) && Strays(c, more, further, now, last)
    ensures Strays(c, heard + more, mismatched + further, now, none)
  {
    OfTypeConcat(heard, more, Want(c));
    if OfType(more, Want(c)) == [] {
      assert OfType(heard, Want(c)) + [] == OfType(heard, Want(c));
    } else {
      OfTypeMembers(more, Want(c));
      var fs := OfType(more, Want(c));
      assert fs[|fs| - 1] in fs;
    }
  }

  /** A purge and an attempt keep everything that is no response. */
  lemma {:induction false} LaterHeld(start: seq<Frame>, heard: seq<Frame>, held: seq<Frame>, more: seq<Frame>, now: seq<Frame>)
    requires Purged(held) == Purged(start + PageFrames(heard)) && Purged(now) == Purged(Purged(held) + PageFrames(more))
    ensures Purged(now) == Purged(start + PageFrames(heard + more))
  {
    PurgedAgain(held);
    PurgedConcat(Purged(held), PageFrames(more));
    PageFramesConcat(heard, more);
    Reassociate(start, PageFrames(heard), PageFrames(more));
    PurgedConcat(start + PageFrames(heard), PageFrames(more));
  }
  lemma {:induction false} NothingHeard(c: Op, held: seq<Frame>, last: nat)
    ensures AnswerIn(c, []) == None && Strays(c, [], 0, last, last)
    ensures Purged(Purged(held)) == Purged(Purged(held) + PageFrames([])) && ConsoleBytes([]) == []
  {
    assert Purged(held) + PageFrames([]) == Purged(held);
  }

  lemma {:induction false} NoAttemptYet(c: Op, held: seq<Frame>, last: nat)
    ensures AnswerIn(c, []) == None && Strays(c, [], 0, last, last)
    ensures Purged(held) == Purged(held + PageFrames([])) && ConsoleBytes([]) == []
  {
    assert held + PageFrames([]) == held;
  }

  /** One more receive of a wait. */
  lemma {:induction false} HeardMore(c: Op, base: seq<Frame>, heard: seq<Frame>, held: seq<Frame>, w: int, last: nat, none: nat, more: seq<Frame>,
                                     got: seq<Frame>, console: seq<bv8>)
    requires Sifted(c, base, heard, held, w, last, none)
    ensures Sifted(c, base, heard + more, held + PageFrames(more), w, last, none)
    ensures got + heard + more == got + (heard + more)
    ensures console + ConsoleBytes(heard) + ConsoleBytes(more) == console + ConsoleBytes(heard + more)
  {
    SiftMore(c, base, heard, held, w, last, none, more);
    Reassociate(got, heard, more);
    ConsoleBytesConcat(heard, more);
    Reassociate(console, ConsoleBytes(heard), ConsoleBytes(more));
  }

  /** One more attempt of an exchange. */
  lemma {:induction false} OneMoreAttempt(c: Op, start: seq<Frame>, heard: seq<Frame>, held: seq<Frame>, more: seq<Frame>, now: seq<Frame>,
                                          got: seq<Frame>, console: seq<bv8>)
    requires AnswerIn(c, heard) == None
    requires Purged(held) == Purged(start + PageFrames(heard)) && Purged(now) == Purged(Purged(held) + PageFrames(more))
    ensures AnswerIn(c, heard + more) == AnswerIn(c, more)
    ensures Purged(now) == Purged(start + PageFrames(heard + more))
    ensures got + heard + more == got + (heard + more)
    ensures console + ConsoleBytes(heard) + ConsoleBytes(more) == console + ConsoleBytes(heard + more)
  {
    LaterAttempt(c, heard, more);
    LaterHeld(start, heard, held, more, now);
    Reassociate(got, heard, more);
    ConsoleBytesConcat(heard, more);
    Reassociate(console, ConsoleBytes(heard), ConsoleBytes(more));
  }
}
