/**
 The order and the timing of a client's calls of its transport: when a copy of a request
 may be handed over, when it may be handed over again, and what each fault must follow.
 */
module Pacing {
  import opened Wrappers

  const RECV_DEADLINE_MS: nat := 2000
  const ATTEMPT_DEADLINE_MS: nat := 250
  const RETRY_BUDGET: nat := 3

  datatype SendResult = Sent | Stalled | Failed | TimedOut(sent: nat, len: nat)

  datatype LinkFault =
    | NotParked | SendStalled | SendTimedOut(sent: nat, len: nat) | SendFailed | RecvFailed
    | Timeout(attempts: nat, elapsedMs: nat, waitedMs: nat, deliveries: nat, bytesIn: nat)
    | WrongPage(asked: nat, got: nat)

  /** One call of the transport, with what it returned: `Handed` a request, `Mirrored` console output. */
  datatype Call =
    | Clock(ms: nat) | Armed(ok: bool) | Handed(r: SendResult) | Received(ok: bool)
    | Mirrored(console: SendResult)

  /** The calls that handed over a whole request. */
  function Copies(calls: seq<Call>): nat {
    if calls == [] then 0 else Copies(calls[..|calls| - 1]) + if calls[|calls| - 1] == Handed(Sent) then 1 else 0
  }

  lemma {:induction false} CopiesStep(calls: seq<Call>, c: Call)
    ensures Copies(calls + [c]) == Copies(calls) + if c == Handed(Sent) then 1 else 0
  {
    assert (calls + [c])[..|calls|] == calls;
  }

  /** Readings of one clock: they never go back, and none is ahead of it. */
  ghost predicate Ticking(calls: seq<Call>, clock: nat) {
    calls == [] ||
    var last := calls[|calls| - 1];
    if last.Clock? then last.ms <= clock && Ticking(calls[..|calls| - 1], last.ms) else Ticking(calls[..|calls| - 1], clock)
  }

  lemma {:induction false} TickingOn(calls: seq<Call>, clock: nat, later: nat)
    requires Ticking(calls, clock) && clock <= later
    ensures Ticking(calls, later)
  {
    if calls != [] && !calls[|calls| - 1].Clock? {
      TickingOn(calls[..|calls| - 1], clock, later);
    }
  }

  lemma {:induction false} TickingStep(calls: seq<Call>, c: Call, clock: nat)
    requires Ticking(calls, clock) && (c.Clock? ==> c.ms == clock)
    ensures Ticking(calls + [c], clock)
  {
    assert (calls + [c])[..|calls|] == calls;
  }

  lemma {:induction false} EarlierReading(calls: seq<Call>, clock: nat, i: nat)
    requires Ticking(calls, clock) && i < |calls| && calls[i].Clock?
    ensures calls[i].ms <= clock
  {
    var n := |calls| - 1;
    if i < n {
      EarlierReading(calls[..n], if calls[n].Clock? then calls[n].ms else clock, i);
    }
  }

  lemma {:induction false} NeverBack(calls: seq<Call>, clock: nat, i: nat, j: nat)
    requires Ticking(calls, clock) && i <= j < |calls| && calls[i].Clock? && calls[j].Clock?
    ensures calls[i].ms <= calls[j].ms
  {
    var n := |calls| - 1;
    if j < n {
      NeverBack(calls[..n], if calls[n].Clock? then calls[n].ms else clock, i, j);
    } else if i < n {
      EarlierReading(calls[..n], calls[n].ms, i);
    }
  }

  // ---- when a copy may be handed over; an exchange begins with the clock reading at `from` ----

  /** A copy directly follows a clock reading within the deadline, and that a listener found parked. */
  ghost predicate CopyInTime(calls: seq<Call>, from: nat, i: nat)
    requires from < |calls| && calls[from].Clock? && i < |calls|
  {
    calls[i].Handed? ==>
      && from + 3 <= i
      && calls[i - 1].Clock? && calls[i - 1].ms <= calls[from].ms + RECV_DEADLINE_MS
      && calls[i - 2] == Armed(true)
  }

  /** A reading at `k` finds the wait since the copy at `i`, timed from the reading just after it, too long. */
  ghost predicate Overdue(calls: seq<Call>, i: nat, k: nat) {
    && i + 1 < k < |calls| && calls[i + 1].Clock? && calls[k].Clock?
    && calls[k].ms > calls[i + 1].ms + ATTEMPT_DEADLINE_MS
  }

  /** Of two copies the first was handed over whole, and had been waited for too long before the second. */
  ghost predicate ResentLate(calls: seq<Call>, i: nat, j: nat)
    requires i < |calls| && j < |calls|
  {
    calls[i].Handed? && calls[j].Handed? ==> calls[i] == Handed(Sent) && exists k: nat :: k < j && Overdue(calls, i, k)
  }

  ghost predicate Orderly(calls: seq<Call>, from: nat) {
    && from < |calls| && calls[from].Clock?
    && (forall i :: from <= i < |calls| ==> CopyInTime(calls, from, i))
    && (forall i, j :: from <= i < j < |calls| ==> ResentLate(calls, i, j))
  }

  /** After the calls `past`, an exchange began that read `began`, and is under way. */
  ghost predicate Exchanging(past: seq<Call>, calls: seq<Call>, began: nat) {
    past <= calls && Orderly(calls, |past|) && calls[|past|] == Clock(began)
  }

  /** Once a reading is past the deadline, nothing is handed over any more. */
  ghost predicate NoneLate(calls: seq<Call>, from: nat)
    requires from < |calls| && calls[from].Clock?
  {
    forall i, j :: from <= i < j < |calls| ==> NotAfterDeadline(calls, from, i, j)
  }

  ghost predicate NotAfterDeadline(calls: seq<Call>, from: nat, i: nat, j: nat)
    requires from < |calls| && calls[from].Clock? && i < |calls| && j < |calls|
  {
    calls[i].Clock? && calls[i].ms > calls[from].ms + RECV_DEADLINE_MS ==> !calls[j].Handed?
  }

  lemma {:induction false} NoCopyIsLate(calls: seq<Call>, from: nat, clock: nat)
    requires Orderly(calls, from) && Ticking(calls, clock)
    ensures NoneLate(calls, from)
  {
    forall i, j | from <= i < j < |calls| ensures NotAfterDeadline(calls, from, i, j) {
      assert CopyInTime(calls, from, j);
      if calls[i].Clock? && calls[j].Handed? {
        NeverBack(calls, clock, i, j - 1);
      }
    }
  }

  // ---- between copies ----

  ghost predicate NoCopyAt(calls: seq<Call>, j: nat)
    requires j < |calls|
  {
    !calls[j].Handed?
  }

  /** The last copy handed over is the one at `at`. */
  ghost predicate LastCopy(calls: seq<Call>, at: nat) {
    at < |calls| && calls[at].Handed? && forall j :: at < j < |calls| ==> NoCopyAt(calls, j)
  }

  lemma {:induction false} StillLast(calls: seq<Call>, at: nat, c: Call)
    requires LastCopy(calls, at) && !c.Handed?
    ensures LastCopy(calls + [c], at)
  {
    forall j | at < j < |calls| + 1 ensures NoCopyAt(calls + [c], j) {
      assert j < |calls| ==> NoCopyAt(calls, j);
    }
  }

  /** A copy was handed over whole, at `at`; what it waits for is timed from `sentAt`. */
  ghost predicate Waiting(calls: seq<Call>, from: nat, at: nat, sentAt: nat) {
    from <= at && LastCopy(calls, at) && calls[at] == Handed(Sent) && at + 1 < |calls| && calls[at + 1] == Clock(sentAt)
  }

  /** No copy yet, or the last one has been waited for too long. */
  ghost predicate MaySend(calls: seq<Call>, from: nat) {
    || (forall i :: from <= i < |calls| ==> NoCopyAt(calls, i))
    || (exists at: nat, k: nat :: DueAgain(calls, from, at, k))
  }

  ghost predicate DueAgain(calls: seq<Call>, from: nat, at: nat, k: nat) {
    from <= at && LastCopy(calls, at) && calls[at] == Handed(Sent) && Overdue(calls, at, k)
  }

  lemma {:induction false} FirstReading(calls: seq<Call>, ms: nat)
    ensures Exchanging(calls, calls + [Clock(ms)], ms) && MaySend(calls + [Clock(ms)], |calls|)
  {
  }

  lemma {:induction false} OverdueStays(calls: seq<Call>, c: Call, i: nat, k: nat)
    requires Overdue(calls, i, k)
    ensures Overdue(calls + [c], i, k)
  {
  }

  lemma {:induction false} ResentStays(calls: seq<Call>, c: Call, i: nat, j: nat)
    requires i < |calls| && j < |calls| && ResentLate(calls, i, j)
    ensures ResentLate(calls + [c], i, j)
  {
    if calls[i].Handed? && calls[j].Handed? {
      var k: nat :| k < j && Overdue(calls, i, k);
      OverdueStays(calls, c, i, k);
    }
  }

  /** Any other call keeps the order, and what it allows. */
  lemma {:induction false} OtherCall(calls: seq<Call>, from: nat, c: Call)
    requires Orderly(calls, from) && !c.Handed?
    ensures Orderly(calls + [c], from)
  {
    var more := calls + [c];
    forall i | from <= i < |more| ensures CopyInTime(more, from, i) {
      if i < |calls| {
        assert CopyInTime(calls, from, i);
      }
    }
    forall i, j | from <= i < j < |more| ensures ResentLate(more, i, j) {
      if j < |calls| {
        assert ResentLate(calls, i, j);
        ResentStays(calls, c, i, j);
      }
    }
  }

  lemma {:induction false} StillMaySend(calls: seq<Call>, from: nat, c: Call)
    requires MaySend(calls, from) && !c.Handed?
    ensures MaySend(calls + [c], from)
  {
    var more := calls + [c];
    if i: nat :| from <= i < |more| && !NoCopyAt(more, i) {
      assert i < |calls| && !NoCopyAt(calls, i);
      var at: nat, k: nat :| DueAgain(calls, from, at, k);
      StillLast(calls, at, c);
      OverdueStays(calls, c, at, k);
      assert DueAgain(calls + [c], from, at, k);
    }
  }

  lemma {:induction false} StillWaiting(calls: seq<Call>, from: nat, at: nat, sentAt: nat, c: Call)
    requires Waiting(calls, from, at, sentAt) && !c.Handed?
    ensures Waiting(calls + [c], from, at, sentAt)
  {
    StillLast(calls, at, c);
  }

  /** A reading after too long a wait allows another copy. */
  lemma {:induction false} WaitedTooLong(calls: seq<Call>, from: nat, at: nat, sentAt: nat, now: nat)
    requires Waiting(calls, from, at, sentAt) && now > sentAt + ATTEMPT_DEADLINE_MS
    ensures MaySend(calls + [Clock(now)], from)
  {
    StillLast(calls, at, Clock(now));
    assert DueAgain(calls + [Clock(now)], from, at, |calls|);
  }

  /** A copy may be handed over now. */
  ghost predicate InTurn(past: seq<Call>, calls: seq<Call>, began: nat) {
    && Exchanging(past, calls, began) && MaySend(calls, |past|)
    && |past| + 3 <= |calls| && calls[|calls| - 2] == Armed(true)
    && calls[|calls| - 1].Clock? && calls[|calls| - 1].ms <= began + RECV_DEADLINE_MS
  }

  ghost predicate JustSent(calls: seq<Call>) {
    calls != [] && calls[|calls| - 1] == Handed(Sent)
  }

  /** The reading after a copy handed over whole is where its wait is timed from. */
  lemma {:induction false} NowWaiting(past: seq<Call>, calls: seq<Call>, began: nat, sentAt: nat)
    requires Exchanging(past, calls, began) && JustSent(calls)
    ensures Exchanging(past, calls + [Clock(sentAt)], began)
    ensures Waiting(calls + [Clock(sentAt)], |past|, |calls| - 1, sentAt)
  {
    OtherCall(calls, |past|, Clock(sentAt));
    StillLast(calls, |calls| - 1, Clock(sentAt));
  }

  /** Calls other than a copy keep an exchange going. */
  lemma {:induction false} StillGoing(past: seq<Call>, calls: seq<Call>, began: nat, c: Call)
    requires Exchanging(past, calls, began) && !c.Handed?
    ensures Exchanging(past, calls + [c], began)
  {
    OtherCall(calls, |past|, c);
  }

  /** The calls after `past` are one exchange's, with every copy in turn and none late. */
  ghost predicate Paced(past: seq<Call>, calls: seq<Call>) {
    past <= calls && Orderly(calls, |past|) && NoneLate(calls, |past|)
  }

  lemma {:induction false} Ended(past: seq<Call>, calls: seq<Call>, began: nat, clock: nat)
    requires Exchanging(past, calls, began) && Ticking(calls, clock)
    ensures Paced(past, calls)
  {
    NoCopyIsLate(calls, |past|, clock);
  }

  /** A copy handed over in its turn keeps the order. */
  lemma {:induction false} CopyCall(past: seq<Call>, calls: seq<Call>, began: nat, r: SendResult)
    requires InTurn(past, calls, began)
    ensures Exchanging(past, calls + [Handed(r)], began)
  {
    var more, from, n := calls + [Handed(r)], |past|, |calls|;
    forall i | from <= i < |more| ensures CopyInTime(more, from, i) {
      if i < n {
        assert CopyInTime(calls, from, i);
      }
    }
    forall i, j | from <= i < j < |more| ensures ResentLate(more, i, j) {
      if j < n {
        assert ResentLate(calls, i, j);
        ResentStays(calls, Handed(r), i, j);
      } else {
        CopyAgain(calls, from, r, i);
      }
    }
  }

  lemma {:induction false} CopyAgain(calls: seq<Call>, from: nat, r: SendResult, i: nat)
    requires Orderly(calls, from) && MaySend(calls, from) && from <= i < |calls|
    ensures ResentLate(calls + [Handed(r)], i, |calls|)
  {
    if calls[i].Handed? {
      assert !NoCopyAt(calls, i);
      var at: nat, k: nat :| DueAgain(calls, from, at, k);
      if i < at {
        assert ResentLate(calls, i, at);
        k :| k < at && Overdue(calls, i, k);
      }
      OverdueStays(calls, Handed(r), i, k);
    }
  }

  // ---- what a fault must follow ----

  function Since(start: nat, now: nat): nat {
    if now > start then now - start else 0
  }

  /** The last call is the failing one the fault reports. */
  ghost predicate LastFailed(calls: seq<Call>, f: LinkFault)
    requires calls != []
  {
    var last := calls[|calls| - 1];
    match f
    case NotParked => last == Armed(false)
    case SendStalled => last == Handed(Stalled)
    case SendFailed => last == Handed(Failed)
    case SendTimedOut(sent, len) => last == Handed(TimedOut(sent, len))
    case RecvFailed => last == Received(false)
    case _ => false
  }

  /** The last call is a reading, this long after the exchange began. */
  ghost predicate LastRead(calls: seq<Call>, from: nat, elapsed: nat)
    requires from < |calls| && calls[from].Clock?
  {
    var last := calls[|calls| - 1];
    last.Clock? && elapsed == Since(calls[from].ms, last.ms)
  }

  /** A call failed, or was a reading past the deadline. */
  ghost predicate Stopped(calls: seq<Call>, from: nat, f: LinkFault)
    requires from < |calls| && calls[from].Clock?
  {
    if f.Timeout? then f.elapsedMs > RECV_DEADLINE_MS && LastRead(calls, from, f.elapsedMs) else LastFailed(calls, f)
  }

  /** The last call is a reading this long after the last copy. */
  ghost predicate WaitedFor(calls: seq<Call>, from: nat, waited: nat)
    requires calls != [] && calls[|calls| - 1].Clock?
  {
    exists at: nat, sentAt: nat :: Waiting(calls, from, at, sentAt) && waited == Since(sentAt, calls[|calls| - 1].ms)
  }

  /** A reading past the deadline, or too long after the last copy the budget allows. */
  ghost predicate RanOut(calls: seq<Call>, from: nat, copies: int, elapsed: nat, waited: nat)
    requires from < |calls| && calls[from].Clock?
  {
    && LastRead(calls, from, elapsed)
    && (elapsed > RECV_DEADLINE_MS || (waited > ATTEMPT_DEADLINE_MS && copies == RETRY_BUDGET + 1 && WaitedFor(calls, from, waited)))
  }

  /** What a link that was given up on was given up for, after handing over `copies` copies. */
  ghost predicate Cause(calls: seq<Call>, from: nat, copies: int, f: LinkFault)
    requires from < |calls| && calls[from].Clock?
  {
    match f
    case Timeout(_, elapsed, waited, _, _) => RanOut(calls, from, copies, elapsed, waited)
    case WrongPage(_, _) => exists elapsed: nat, waited: nat :: RanOut(calls, from, copies, elapsed, waited)
    case _ => LastFailed(calls, f)
  }
  lemma {:induction false} StoppedIsCause(calls: seq<Call>, from: nat, copies: int, f: LinkFault)
    requires from < |calls| && calls[from].Clock? && Stopped(calls, from, f)
    ensures Cause(calls, from, copies, f) && !f.WrongPage?
  {
  }

  /** A timeout during which answers for other pages came is reported as such. */
  function Reported(why: LinkFault, mismatched: nat, asked: nat, got: nat): LinkFault {
    if why.Timeout? && mismatched > 0 then WrongPage(asked, got) else why
  }

  lemma {:induction false} ReportedCause(calls: seq<Call>, from: nat, copies: int, why: LinkFault, mismatched: nat, asked: nat, got: nat)
    requires from < |calls| && calls[from].Clock? && Cause(calls, from, copies, why)
    ensures Cause(calls, from, copies, Reported(why, mismatched, asked, got))
  {
    if why.Timeout? {
      assert RanOut(calls, from, copies, why.elapsedMs, why.waitedMs);
    }
  }

  function FaultOf(r: SendResult): Option<LinkFault> {
    match r
    case Sent => None
    case Stalled => Some(SendStalled)
    case Failed => Some(SendFailed)
    case TimedOut(sent, len) => Some(SendTimedOut(sent, len))
  }

  lemma {:induction false} CopyHandedOver(past: seq<Call>, calls: seq<Call>, began: nat, r: SendResult)
    requires InTurn(past, calls, began)
    ensures var more, f := calls + [Handed(r)], FaultOf(r);
            Exchanging(past, more, began) && if f.None? then JustSent(more) else Stopped(more, |past|, f.value)
  {
    CopyCall(past, calls, began, r);
  }
}
