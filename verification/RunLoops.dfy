/**
 The two loops that run a guest: the host's, which counts every instruction, and
 the badge's, which runs in slices and services the link in between. The machine is
 any deterministic one, given by what its loops ask of it.
 */
module RunLoops {
  import opened Bytes

  datatype Stepped = Shutdown | Handled | Failed(addr: nat)

  datatype Machine<!S> = Machine(
    deadEnd: S -> bool,         // in M-mode at address 0 with no trap vector
    pending: S -> S,            // take a pending interrupt
    step: S -> (S, Stepped),    // one instruction, trapping or calling the firmware
    tick: S -> S,               // the timer
    console: S -> seq<byte>     // everything printed so far
  )

  datatype Ending = EndShutdown | EndCapped | EndTrap | EndFailed(addr: nat) | EndStopped

  datatype Run<S> = Run(final: S, executed: nat, ending: Ending)

  // ---- what a run is ----

  function Moved<S>(m: Machine<S>, s: S): S {
    m.step(m.pending(s)).0
  }

  function How<S>(m: Machine<S>, s: S): Stepped {
    m.step(m.pending(s)).1
  }

  /** The state after `n` instructions that retired without ending the run. */
  function Nth<S>(m: Machine<S>, s: S, n: nat): S {
    if n == 0 then s else m.tick(Moved(m, Nth(m, s, n - 1)))
  }

  /** Nothing has ended the run before its `n`th instruction. */
  ghost predicate Goes<S>(m: Machine<S>, s: S, n: nat) {
    forall k :: 0 <= k < n ==> !m.deadEnd(Nth(m, s, k)) && How(m, Nth(m, s, k)) == Handled
  }

  /** What it means for a run from `s` under a budget to end this way; the loops differ in `trapFirst`. */
  ghost predicate Ends<S>(m: Machine<S>, s: S, budget: nat, trapFirst: bool, r: Run<S>) {
    match r.ending
    case EndTrap =>
      && Goes(m, s, r.executed) && r.final == Nth(m, s, r.executed) && m.deadEnd(r.final)
      && (if trapFirst then r.executed <= budget else r.executed < budget)
    case EndCapped =>
      && Goes(m, s, r.executed) && r.final == Nth(m, s, r.executed) && r.executed == budget
      && (trapFirst ==> !m.deadEnd(r.final))
    case EndShutdown =>
      && 0 < r.executed <= budget
      && var last := Nth(m, s, r.executed - 1);
         Goes(m, s, r.executed - 1) && !m.deadEnd(last) && How(m, last) == Shutdown && r.final == Moved(m, last)
    case EndFailed(addr) =>
      && r.executed < budget
      && var last := Nth(m, s, r.executed);
         Goes(m, s, r.executed) && !m.deadEnd(last) && How(m, last) == Failed(addr) && r.final == Moved(m, last)
    case EndStopped => false
  }

  /** At most one run answers to the description. */
  lemma {:induction false} EndsOnce<S>(m: Machine<S>, s: S, budget: nat, trapFirst: bool, a: Run<S>, b: Run<S>)
    requires Ends(m, s, budget, trapFirst, a) && Ends(m, s, budget, trapFirst, b)
    ensures a == b
  {
    var i := if a.ending.EndShutdown? then a.executed - 1 else a.executed;
    var j := if b.ending.EndShutdown? then b.executed - 1 else b.executed;
    assert Goes(m, s, i) && Goes(m, s, j);
    assert i == j;
  }

  // ---- the host's loop ----

  method RunUntil<S>(m: Machine<S>, s: S, budget: nat) returns (r: Run<S>)
    ensures Ends(m, s, budget, true, r)
  {
    var cpu, executed := s, 0;
    while true
      invariant executed <= budget && Goes(m, s, executed) && cpu == Nth(m, s, executed)
      decreases budget - executed
    {
      if m.deadEnd(cpu) {
        return Run(cpu, executed, EndTrap);
      }
      if executed >= budget {
        return Run(cpu, executed, EndCapped);
      }
      var (next, how) := m.step(m.pending(cpu));
      match how {
        case Shutdown => return Run(next, executed + 1, EndShutdown);
        case Handled =>
          cpu, executed := m.tick(next), executed + 1;
        case Failed(addr) => return Run(next, executed, EndFailed(addr));
      }
    }
  }

  // ---- the badge's loop ----

  /** The instruction count at the end of the `i`th slice. */
  function SliceEnd(i: nat, slice: nat, budget: nat): nat {
    if (i + 1) * slice < budget then (i + 1) * slice else budget
  }

  /** After `done` slices. */
  function AfterSlices(done: nat, slice: nat, budget: nat): nat {
    if done == 0 then 0 else SliceEnd(done - 1, slice, budget)
  }

  lemma {:induction false} NextSlice(done: nat, slice: nat, budget: nat)
    requires slice > 0 && AfterSlices(done, slice, budget) < budget
    ensures var at := AfterSlices(done, slice, budget);
            SliceEnd(done, slice, budget) == at + if slice < budget - at then slice else budget - at
  {
    assert (done + 1) * slice == done * slice + slice;
  }

  lemma {:induction false} LaterSlices(i: nat, j: nat, slice: nat, budget: nat)
    requires i <= j
    ensures SliceEnd(i, slice, budget) <= SliceEnd(j, slice, budget) <= budget
  {
    assert (j + 1) * slice == (i + 1) * slice + (j - i) * slice;
  }

  /** The run reaches the end of the `i`th slice, and the watcher does not want it to go on from there. */
  ghost predicate Refused<S>(m: Machine<S>, s: S, budget: nat, slice: nat, watch: (S, nat) -> bool, i: nat) {
    var n := SliceEnd(i, slice, budget);
    budget > 0 && Goes(m, s, n) && !watch(Nth(m, s, n), n)
  }

  /** A run that ends otherwise than by its budget within a slice is not refused after it, nor later. */
  lemma {:induction false} OverByThen<S>(m: Machine<S>, s: S, budget: nat, slice: nat, watch: (S, nat) -> bool, done: nat, r: Run<S>)
    requires Ends(m, s, SliceEnd(done, slice, budget), false, r) && r.ending != EndCapped
    ensures Ends(m, s, budget, false, r)
    ensures forall j: nat :: done <= j ==> !Refused(m, s, budget, slice, watch, j)
  {
    LaterSlices(done, done, slice, budget);
    forall j: nat | done <= j ensures !Refused(m, s, budget, slice, watch, j) {
      LaterSlices(done, j, slice, budget);
    }
  }

  /** Nor is one that the watcher let go on at the budget. */
  lemma {:induction false} CappedByThen<S>(m: Machine<S>, s: S, budget: nat, slice: nat, watch: (S, nat) -> bool, done: nat)
    requires AfterSlices(done, slice, budget) == budget
    requires forall j: nat :: j < done ==> !Refused(m, s, budget, slice, watch, j)
    ensures forall j: nat :: !Refused(m, s, budget, slice, watch, j)
  {
    forall j: nat | done <= j ensures !Refused(m, s, budget, slice, watch, j) {
      if done > 0 {
        LaterSlices(done - 1, j, slice, budget);
        assert !Refused(m, s, budget, slice, watch, done - 1);
      }
    }
  }

  /** Where the loop stands after `done` slices, none of them refused. */
  ghost predicate Between<S>(m: Machine<S>, s: S, budget: nat, slice: nat, watch: (S, nat) -> bool, done: nat, cpu: S, executed: nat) {
    && executed == AfterSlices(done, slice, budget) <= budget && Goes(m, s, executed) && cpu == Nth(m, s, executed)
    && forall i: nat :: i < done ==> !Refused(m, s, budget, slice, watch, i)
  }

  lemma {:induction false} WentOn<S>(m: Machine<S>, s: S, budget: nat, slice: nat, watch: (S, nat) -> bool, done: nat, cpu: S, executed: nat)
    requires executed == SliceEnd(done, slice, budget) && Goes(m, s, executed) && cpu == Nth(m, s, executed) && watch(cpu, executed)
    requires forall i: nat :: i < done ==> !Refused(m, s, budget, slice, watch, i)
    ensures Between(m, s, budget, slice, watch, done + 1, cpu, executed)
  {
    assert !Refused(m, s, budget, slice, watch, done);
  }

  /** The inner loop: from one count to another, unless the run ends first. */
  method RunOn<S>(m: Machine<S>, ghost s: S, from: S, start: nat, upTo: nat) returns (r: Run<S>)
    requires start <= upTo && Goes(m, s, start) && from == Nth(m, s, start)
    ensures Ends(m, s, upTo, false, r)
  {
    var cpu, executed := from, start;
    while executed < upTo
      invariant executed <= upTo && Goes(m, s, executed) && cpu == Nth(m, s, executed)
      decreases upTo - executed
    {
      if m.deadEnd(cpu) {
        return Run(cpu, executed, EndTrap);
      }
      var (next, how) := m.step(m.pending(cpu));
      match how {
        case Shutdown => return Run(next, executed + 1, EndShutdown);
        case Handled =>
          cpu, executed := m.tick(next), executed + 1;
        case Failed(addr) => return Run(next, executed, EndFailed(addr));
      }
    }
    return Run(cpu, executed, EndCapped);
  }

  /**
   Runs in slices. Between slices the link is serviced, which with nothing typed leaves the
   machine alone, and the watcher is asked whether to go on. The run is stopped exactly when
   it refuses somewhere, at the end of the first slice where it does; `done` is that slice.
   */
  method RunSliced<S>(m: Machine<S>, s: S, budget: nat, slice: nat, watch: (S, nat) -> bool) returns (r: Run<S>, ghost done: nat)
    requires slice > 0
    ensures r.ending != EndStopped ==> Ends(m, s, budget, false, r) && forall i: nat :: !Refused(m, s, budget, slice, watch, i)
    ensures r.ending == EndStopped ==>
              && Refused(m, s, budget, slice, watch, done) && (forall i: nat :: i < done ==> !Refused(m, s, budget, slice, watch, i))
              && r.executed == SliceEnd(done, slice, budget) && r.final == Nth(m, s, r.executed)
  {
    var cpu, executed := s, 0;
    done := 0;
    while executed < budget
      invariant Between(m, s, budget, slice, watch, done, cpu, executed)
      decreases budget - executed
    {
      var todo := if slice < budget - executed then slice else budget - executed;
      NextSlice(done, slice, budget);
      r := RunOn(m, s, cpu, executed, executed + todo);
      if r.ending != EndCapped {
        OverByThen(m, s, budget, slice, watch, done, r);
        return;
      }
      cpu, executed := r.final, r.executed;
      if !watch(cpu, executed) {
        return Run(cpu, executed, EndStopped), done;
      }
      WentOn(m, s, budget, slice, watch, done, cpu, executed);
      done := done + 1;
    }
    CappedByThen(m, s, budget, slice, watch, done);
    return Run(cpu, executed, EndCapped), done;
  }

  /** The loops end in the same state after the same count; the endings differ exactly when the machine reaches a dead end at the budget. */
  lemma {:induction false} LoopsAgree<S>(m: Machine<S>, s: S, budget: nat, host: Run<S>, badge: Run<S>)
    requires Ends(m, s, budget, true, host) && Ends(m, s, budget, false, badge)
    ensures host.final == badge.final && host.executed == badge.executed
    ensures host.ending != badge.ending <==> Goes(m, s, budget) && m.deadEnd(Nth(m, s, budget))
    ensures host.ending != badge.ending ==> host.ending == EndTrap && badge.ending == EndCapped
  {
    if host.ending == EndTrap && host.executed == budget {
      EndsOnce(m, s, budget, false, host.(ending := EndCapped), badge);
    } else {
      EndsOnce(m, s, budget, false, host, badge);
      if Goes(m, s, budget) && m.deadEnd(Nth(m, s, budget)) {
        EndsOnce(m, s, budget, true, host, Run(Nth(m, s, budget), budget, EndTrap));
      }
    }
  }

  /** Both loops over one machine, the badge's with the watcher it ships with. */
  method RunBoth<S>(m: Machine<S>, s: S, budget: nat, slice: nat) returns (host: Run<S>, badge: Run<S>)
    requires slice > 0
    ensures Ends(m, s, budget, true, host) && Ends(m, s, budget, false, badge)
    ensures host.final == badge.final && host.executed == badge.executed
    ensures host.ending != badge.ending <==> Goes(m, s, budget) && m.deadEnd(Nth(m, s, budget))
  {
    host := RunUntil(m, s, budget);
    ghost var done;
    badge, done := RunSliced(m, s, budget, slice, (c, n) => true);
    LoopsAgree(m, s, budget, host, badge);
  }

  /** Counts its instructions, and is at a dead end after `n`. */
  function Counting(n: nat): Machine<nat> {
    Machine(k => k == n, k => k, k => (k, Handled), k => k + 1, k => [])
  }

  lemma {:induction false} CountingGoes(n: nat, k: nat)
    requires k <= n
    ensures Nth(Counting(n), 0, k) == k && Goes(Counting(n), 0, k)
  {
    if k > 0 {
      CountingGoes(n, k - 1);
    }
  }

  /** Under any budget there is a machine whose two endings differ. */
  lemma {:induction false} EndingsCanDiffer(budget: nat)
    ensures Ends(Counting(budget), 0, budget, true, Run(budget, budget, EndTrap))
    ensures Ends(Counting(budget), 0, budget, false, Run(budget, budget, EndCapped))
  {
    CountingGoes(budget, budget);
  }

  // ---- the order within one instruction ----

  datatype Did = Polled | Retired | Ticked

  /** Keeps a record of what its loop asks of it; instruction `n` comes out as `how`. */
  function Logging(n: nat, how: Stepped): Machine<seq<Did>> {
    Machine(s => false, s => s + [Polled], s => (s + [Retired], if |s| == 3 * n + 1 then how else Handled), s => s + [Ticked], s => [])
  }

  /** An interrupt looked for, the instruction, the timer: so many times over. */
  function Rounds(n: nat): (r: seq<Did>)
    ensures |r| == 3 * n
  {
    if n == 0 then [] else Rounds(n - 1) + [Polled, Retired, Ticked]
  }

  lemma {:induction false} LogOf(n: nat, how: Stepped, k: nat)
    requires k <= n
    ensures Nth(Logging(n, how), [], k) == Rounds(k) && Goes(Logging(n, how), [], k)
  {
    if k > 0 {
      LogOf(n, how, k - 1);
    }
  }

  /**
   Either loop polls before each instruction and ticks after it, but for the one that ends
   the run: that is polled for, and not followed by a tick.
   */
  lemma {:induction false} OneInstruction(n: nat, how: Stepped, budget: nat, trapFirst: bool, r: Run<seq<Did>>)
    requires Ends(Logging(n, how), [], budget, trapFirst, r)
    ensures budget <= n ==> r == Run(Rounds(budget), budget, EndCapped)
    ensures how == Shutdown && n < budget ==> r == Run(Rounds(n) + [Polled, Retired], n + 1, EndShutdown)
    ensures how.Failed? && n < budget ==> r == Run(Rounds(n) + [Polled, Retired], n, EndFailed(how.addr))
  {
    var m := Logging(n, how);
    if budget <= n {
      LogOf(n, how, budget);
      EndsOnce(m, [], budget, trapFirst, r, Run(Rounds(budget), budget, EndCapped));
    } else if how != Handled {
      LogOf(n, how, n);
      assert Rounds(n) + [Polled] + [Retired] == Rounds(n) + [Polled, Retired];
      var last := Run(Rounds(n) + [Polled, Retired], if how == Shutdown then n + 1 else n, if how == Shutdown then EndShutdown else EndFailed(how.addr));
      EndsOnce(m, [], budget, trapFirst, r, last);
    }
  }

  // ---- runs in a row ----

  lemma {:induction false} NthConcat<S>(m: Machine<S>, s: S, a: nat, b: nat)
    ensures Nth(m, s, a + b) == Nth(m, Nth(m, s, a), b)
  {
    if b > 0 {
      NthConcat(m, s, a, b - 1);
    }
  }

  lemma {:induction false} GoesConcat<S>(m: Machine<S>, s: S, a: nat, b: nat)
    requires Goes(m, s, a)
    ensures Goes(m, s, a + b) <==> Goes(m, Nth(m, s, a), b)
  {
    if Goes(m, s, a + b) {
      forall k | 0 <= k < b ensures !m.deadEnd(Nth(m, Nth(m, s, a), k)) && How(m, Nth(m, Nth(m, s, a), k)) == Handled {
        NthConcat(m, s, a, k);
      }
    }
    if Goes(m, Nth(m, s, a), b) {
      forall k | 0 <= k < a + b ensures !m.deadEnd(Nth(m, s, k)) && How(m, Nth(m, s, k)) == Handled {
        if a <= k {
          NthConcat(m, s, a, k - a);
        }
      }
    }
  }

  /** A run taken up where another was capped is one run under the joint budget. */
  lemma {:induction false} ResumedRun<S>(m: Machine<S>, s: S, first: nat, more: nat, r: Run<S>)
    requires Goes(m, s, first) && Ends(m, Nth(m, s, first), more, true, r)
    ensures Ends(m, s, first + more, true, r.(executed := first + r.executed))
  {
    var mid := Nth(m, s, first);
    var n := if r.ending.EndShutdown? then r.executed - 1 else r.executed;
    NthConcat(m, s, first, n);
    GoesConcat(m, s, first, n);
    assert Goes(m, mid, n);
  }

  // ---- watching the console ----

  ghost predicate MarkerAt(out: seq<byte>, marker: seq<byte>, i: int) {
    0 <= i <= i + |marker| <= |out| && out[i..i + |marker|] == marker
  }

  ghost predicate Contains(out: seq<byte>, marker: seq<byte>) {
    exists i :: MarkerAt(out, marker, i)
  }

  function Cursor(out: seq<byte>, marker: seq<byte>): nat {
    if marker == [] then 0 else if |out| < |marker| - 1 then 0 else |out| - (|marker| - 1)
  }

  /** Looks for the marker from where the last look left off. */
  method ConsoleReached(out: seq<byte>, marker: seq<byte>, scanned: nat) returns (found: bool, next: nat)
    requires scanned <= |out|
    ensures found <==> marker != [] && exists i :: scanned <= i && MarkerAt(out, marker, i)
    ensures next == if marker == [] then scanned else Cursor(out, marker)
    ensures next <= |out|
  {
    if marker == [] {
      return false, scanned;
    }
    found := false;
    var i := scanned;
    while i + |marker| <= |out| && !found
      invariant scanned <= i
      invariant found ==> MarkerAt(out, marker, i)
      invariant !found ==> forall k :: scanned <= k < i ==> !MarkerAt(out, marker, k)
      decreases |out| - i, !found
    {
      if out[i..i + |marker|] == marker {
        found := true;
      } else {
        i := i + 1;
      }
    }
    next := Cursor(out, marker);
  }

  predicate Extends(earlier: seq<byte>, later: seq<byte>) {
    |earlier| <= |later| && later[..|earlier|] == earlier
  }

  /** Nothing that starts before the cursor can be new: a marker the last look missed straddles its end. */
  lemma {:induction false} CursorIsEnough(earlier: seq<byte>, later: seq<byte>, marker: seq<byte>, i: int)
    requires Extends(earlier, later) && marker != [] && MarkerAt(later, marker, i) && i < Cursor(earlier, marker)
    ensures MarkerAt(earlier, marker, i)
  {
    assert later[..|earlier|][i..i + |marker|] == later[i..i + |marker|];
  }

  /** Looking from the cursor is looking everywhere, as long as earlier looks found nothing. */
  lemma {:induction false} IncrementalScan(earlier: seq<byte>, later: seq<byte>, marker: seq<byte>)
    requires Extends(earlier, later) && marker != [] && !Contains(earlier, marker)
    ensures Contains(later, marker) <==> exists i :: Cursor(earlier, marker) <= i && MarkerAt(later, marker, i)
  {
    if Contains(later, marker) {
      var i :| MarkerAt(later, marker, i);
      if i < Cursor(earlier, marker) {
        CursorIsEnough(earlier, later, marker, i);
        assert false;
      }
      assert Cursor(earlier, marker) <= i && MarkerAt(later, marker, i);
    }
  }

  /** Polls a sequence of growing buffers; stops at the first that answers yes. */
  method FirstSighting(outs: seq<seq<byte>>, marker: seq<byte>) returns (at: nat)
    requires forall i :: 0 < i < |outs| ==> Extends(outs[i - 1], outs[i])
    ensures at <= |outs|
    ensures forall i :: 0 <= i < at ==> marker == [] || !Contains(outs[i], marker)
    ensures at < |outs| ==> marker != [] && Contains(outs[at], marker)
  {
    at := 0;
    var scanned := 0;
    while at < |outs|
      invariant at <= |outs|
      invariant forall i :: 0 <= i < at ==> marker == [] || !Contains(outs[i], marker)
      invariant scanned == if at == 0 then 0 else Cursor(outs[at - 1], marker)
    {
      var found, next := ConsoleReached(outs[at], marker, scanned);
      if marker != [] {
        if at > 0 {
          IncrementalScan(outs[at - 1], outs[at], marker);
        } else {
          assert Contains(outs[0], marker) <==> found;
        }
      }
      if found {
        return;
      }
      scanned, at := next, at + 1;
    }
  }

  // ---- the sliced boot ----

  const CONSOLE_POLL_INSNS: nat := 100_000

  /** The console only ever grows, within a run. */
  ghost predicate ConsoleGrows<S>(m: Machine<S>, s: S) {
    forall n: nat, k: nat :: n <= k && Goes(m, s, k) ==> Extends(m.console(Nth(m, s, n)), m.console(Nth(m, s, k)))
  }

  datatype Booted<S> = Booted(final: S, executed: nat, reached: bool, ending: Ending)

  /** The `i`th look finds the run still going, and the marker on the console. */
  ghost predicate Sees<S>(m: Machine<S>, s: S, budget: nat, marker: seq<byte>, i: nat) {
    var n := SliceEnd(i, CONSOLE_POLL_INSNS, budget);
    budget > 0 && Goes(m, s, n) && !m.deadEnd(Nth(m, s, n)) && marker != [] && Contains(m.console(Nth(m, s, n)), marker)
  }

  /** Where a boot stands between slices. */
  ghost predicate Standing<S>(m: Machine<S>, s: S, budget: nat, polls: nat, cpu: S, executed: nat) {
    && executed == AfterSlices(polls, CONSOLE_POLL_INSNS, budget)
    && Goes(m, s, executed) && cpu == Nth(m, s, executed)
    && (polls > 0 ==> !m.deadEnd(cpu))
  }

  /** Where the console scan stands after looking at `shown`. */
  ghost predicate Scanned(shown: seq<byte>, marker: seq<byte>, scanned: nat) {
    if marker == [] then scanned == 0 else scanned == Cursor(shown, marker) && !Contains(shown, marker)
  }

  /** One slice: under its own budget it is a piece of the whole run. A run that ends in it is never looked at again. */
  method Slice<S>(m: Machine<S>, s: S, budget: nat, marker: seq<byte>, ghost polls: nat, cpu: S, executed: nat) returns (r: Run<S>)
    requires executed < budget && Standing(m, s, budget, polls, cpu, executed)
    ensures r.ending != EndCapped ==> Ends(m, s, budget, true, r) && forall j: nat :: polls <= j ==> !Sees(m, s, budget, marker, j)
    ensures r.ending == EndCapped ==> executed < r.executed <= budget && Standing(m, s, budget, polls + 1, r.final, r.executed)
  {
    var todo := if CONSOLE_POLL_INSNS < budget - executed then CONSOLE_POLL_INSNS else budget - executed;
    var slice := RunUntil(m, cpu, todo);
    r := slice.(executed := executed + slice.executed);
    PieceOfRun(m, s, budget, marker, polls, executed, slice);
  }

  lemma {:induction false} PieceOfRun<S>(m: Machine<S>, s: S, budget: nat, marker: seq<byte>, polls: nat, executed: nat, slice: Run<S>)
    requires executed < budget && executed == AfterSlices(polls, CONSOLE_POLL_INSNS, budget) && Goes(m, s, executed)
    requires Ends(m, Nth(m, s, executed), if CONSOLE_POLL_INSNS < budget - executed then CONSOLE_POLL_INSNS else budget - executed, true, slice)
    ensures var r := slice.(executed := executed + slice.executed);
            if r.ending != EndCapped then
              Ends(m, s, budget, true, r) && forall j: nat :: polls <= j ==> !Sees(m, s, budget, marker, j)
            else
              executed < r.executed <= budget && Standing(m, s, budget, polls + 1, r.final, r.executed)
  {
    NextSlice(polls, CONSOLE_POLL_INSNS, budget);
    var end := SliceEnd(polls, CONSOLE_POLL_INSNS, budget);
    ResumedRun(m, s, executed, end - executed, slice);
    var r := slice.(executed := executed + slice.executed);
    if r.ending != EndCapped {
      NotCapped(m, s, end, budget, r);
      NoMoreLooks(m, s, budget, marker, polls, r);
    }
  }

  lemma {:induction false} NoMoreLooks<S>(m: Machine<S>, s: S, budget: nat, marker: seq<byte>, polls: nat, r: Run<S>)
    requires Ends(m, s, SliceEnd(polls, CONSOLE_POLL_INSNS, budget), true, r) && r.ending != EndCapped
    ensures forall j: nat :: polls <= j ==> !Sees(m, s, budget, marker, j)
  {
    forall j: nat | polls <= j ensures !Sees(m, s, budget, marker, j) {
      LaterSlices(polls, j, CONSOLE_POLL_INSNS, budget);
    }
  }

  /** At the budget every further look would be the one already taken. */
  lemma {:induction false} AllLooks<S>(m: Machine<S>, s: S, budget: nat, marker: seq<byte>, polls: nat)
    requires AfterSlices(polls, CONSOLE_POLL_INSNS, budget) == budget
    requires forall j: nat :: j < polls ==> !Sees(m, s, budget, marker, j)
    ensures forall j: nat :: !Sees(m, s, budget, marker, j)
  {
    forall j: nat | polls <= j ensures !Sees(m, s, budget, marker, j) {
      if polls > 0 {
        LaterSlices(polls - 1, j, CONSOLE_POLL_INSNS, budget);
        assert !Sees(m, s, budget, marker, polls - 1);
      }
    }
  }

  /** A look that resumes where the last left off answers for the whole console. */
  method Look(ghost shown: seq<byte>, out: seq<byte>, marker: seq<byte>, scanned: nat) returns (found: bool, next: nat)
    requires Extends(shown, out) && Scanned(shown, marker, scanned)
    ensures found <==> marker != [] && Contains(out, marker)
    ensures !found ==> Scanned(out, marker, next)
  {
    found, next := ConsoleReached(out, marker, scanned);
    if marker != [] {
      IncrementalScan(shown, out, marker);
    }
  }

  /**
   Runs until the marker shows or the run ends. The marker is reached exactly when some look
   sees it, and then at the first that does, `polls`; not reaching it means one unsliced run.
   */
  method BootSliced<S>(m: Machine<S>, s: S, budget: nat, marker: seq<byte>) returns (b: Booted<S>, ghost polls: nat)
    requires ConsoleGrows(m, s)
    ensures forall i: nat :: i < polls ==> !Sees(m, s, budget, marker, i)
    ensures if b.reached then Sees(m, s, budget, marker, polls) else forall i: nat :: !Sees(m, s, budget, marker, i)
    ensures b.reached ==> b.executed == SliceEnd(polls, CONSOLE_POLL_INSNS, budget) && b.final == Nth(m, s, b.executed)
    ensures !b.reached && budget > 0 ==> Ends(m, s, budget, true, Run(b.final, b.executed, b.ending))
    ensures budget == 0 ==> b == Booted(s, 0, false, EndCapped)
  {
    var cpu, executed, scanned := s, 0, 0;
    polls := 0;
    ghost var shown: seq<byte> := [];
    NothingShown(marker);
    while executed < budget
      invariant executed <= budget && Standing(m, s, budget, polls, cpu, executed)
      invariant Scanned(shown, marker, scanned)
      invariant shown == if polls == 0 then [] else m.console(cpu)
      invariant forall i: nat :: i < polls ==> !Sees(m, s, budget, marker, i)
      decreases budget - executed
    {
      var slice := Slice(m, s, budget, marker, polls, cpu, executed);
      if slice.ending != EndCapped {
        return Booted(slice.final, slice.executed, false, slice.ending), polls;
      }
      var out := m.console(slice.final);
      assert Extends(m.console(cpu), out);
      cpu, executed := slice.final, slice.executed;
      var found, next := Look(shown, out, marker, scanned);
      if found {
        return Booted(cpu, executed, true, EndCapped), polls;
      }
      scanned, shown := next, out;
      polls := polls + 1;
    }
    AllLooks(m, s, budget, marker, polls);
    return Booted(cpu, executed, false, EndCapped), polls;
  }

  lemma {:induction false} NothingShown(marker: seq<byte>)
    ensures Scanned([], marker, 0)
  {
  }

  /** A run that ended otherwise than by its budget ends so under a larger one. */
  lemma {:induction false} NotCapped<S>(m: Machine<S>, s: S, small: nat, large: nat, r: Run<S>)
    requires small <= large && Ends(m, s, small, true, r) && !r.ending.EndCapped?
    ensures Ends(m, s, large, true, r)
  {
  }
}
