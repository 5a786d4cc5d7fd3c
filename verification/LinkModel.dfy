/**
 The page-exchange protocol as a transition system: one synchronous client, two
 ordered channels that may lose a frame or repeat one next to itself, and the host.
 A run is a list of events; every interleaving the program and its link can produce is one.
 */
module LinkModel {
  import opened Wrappers
  import opened Frames
  import opened HostServe

  datatype Op = Read(page: nat) | Write(page: nat, data: Page)

  datatype Outcome = Fetched(data: Page) | Written | OutOfRange | Medium

  /** A completed exchange. */
  datatype Done = Done(op: Op, outcome: Outcome)

  /** The client between, before, and after sending; `Dead` once an exchange has failed. */
  datatype Phase = Idle | Opened(op: Op) | Ready(op: Op) | Awaiting(op: Op) | Dead

  datatype Link = Link(
    up: seq<Frame>,    // client to host
    down: seq<Frame>,  // host to client
    held: seq<Frame>,  // decoded by the client, not yet taken
    pages: seq<Page>,  // the host's memory
    phase: Phase,
    log: seq<Done>)

  datatype Event =
    | DropUp(i: nat) | DropDown(i: nat) | RepeatUp(i: nat) | RepeatDown(i: nat)
    | HostServes(n: nat) | HostConsole(bytes: seq<bv8>)
    | Begin(op: Op) | Purge | Transmit | SendConsole(bytes: seq<bv8>) | Absorb(n: nat)
    | DropMismatch | DropStrayErr | Accept | AcceptErr | Fail

  function Request(op: Op): Frame {
    match op
    case Read(p) => ReadReq(p)
    case Write(p, d) => WriteReq(p, d)
  }

  /** The type byte that answers an operation. */
  function Want(op: Op): nat {
    if op.Read? then TY_READ_RESP else TY_WRITE_ACK
  }

  /** What the client returns for an accepted frame. */
  function ResultOf(f: Frame): Outcome
    requires IsResponse(f)
  {
    match f
    case ReadResp(_, d) => Fetched(d)
    case WriteAck(_) => Written
    case Err(code, _) => if code == ERR_READ || code == ERR_WRITE then OutOfRange else Medium
  }

  function Without<T>(s: seq<T>, i: nat): (r: seq<T>)
    requires i < |s|
    ensures forall x :: x in r ==> x in s
  {
    s[..i] + s[i + 1..]
  }

  function Twice<T>(s: seq<T>, i: nat): (r: seq<T>)
    requires i < |s|
    ensures forall x :: x in r ==> x in s
  {
    s[..i + 1] + s[i..]
  }

  function Start(pages: seq<Page>): Link {
    Link([], [], [], pages, Idle, [])
  }

  /** `inOrder` restricts the host to reads of the port that complete at most one frame. */
  predicate Can(inOrder: bool, s: Link, e: Event) {
    match e
    case DropUp(i) => i < |s.up|
    case RepeatUp(i) => i < |s.up|
    case DropDown(i) => i < |s.down|
    case RepeatDown(i) => i < |s.down|
    case HostServes(n) => n <= |s.up| && (inOrder ==> n <= 1)
    case HostConsole(_) => true
    case Begin(_) => s.phase.Idle?
    case Purge => s.phase.Opened? || s.phase.Awaiting?
    case Transmit => s.phase.Ready?
    case SendConsole(_) => s.phase.Idle?
    case Absorb(n) => n <= |s.down| && (s.phase.Idle? || s.phase.Awaiting?)
    case DropMismatch => s.phase.Awaiting? && Holds(s.held, Want(s.phase.op)) && First(s.held, Want(s.phase.op)).page != s.phase.op.page
    case Accept => s.phase.Awaiting? && Holds(s.held, Want(s.phase.op)) && First(s.held, Want(s.phase.op)).page == s.phase.op.page
    case DropStrayErr => s.phase.Awaiting? && !Holds(s.held, Want(s.phase.op)) && Holds(s.held, TY_ERR) && First(s.held, TY_ERR).page != s.phase.op.page
    case AcceptErr => s.phase.Awaiting? && !Holds(s.held, Want(s.phase.op)) && Holds(s.held, TY_ERR) && First(s.held, TY_ERR).page == s.phase.op.page
    case Fail => s.phase.Opened? || s.phase.Ready? || s.phase.Awaiting?
  }

  function Do(inOrder: bool, s: Link, e: Event): Link
    requires Can(inOrder, s, e)
  {
    match e
    case DropUp(i) => s.(up := Without(s.up, i))
    case RepeatUp(i) => s.(up := Twice(s.up, i))
    case DropDown(i) => s.(down := Without(s.down, i))
    case RepeatDown(i) => s.(down := Twice(s.down, i))
    case HostServes(n) =>
      var batch := ServingOrder(s.up[..n]);
      s.(up := s.up[n..], down := s.down + Replies(batch, s.pages), pages := PagesAfter(batch, s.pages))
    case HostConsole(bytes) => s.(down := s.down + [ConIn(bytes)])
    case Begin(op) => s.(phase := Opened(op))
    case Purge => s.(held := Purged(s.held), phase := Ready(s.phase.op))
    case Transmit => s.(up := s.up + [Request(s.phase.op)], phase := Awaiting(s.phase.op))
    case SendConsole(bytes) => s.(up := s.up + [ConOut(bytes)])
    case Absorb(n) => s.(down := s.down[n..], held := s.held + PageFrames(s.down[..n]))
    case DropMismatch => s.(held := WithoutFirst(s.held, Want(s.phase.op)))
    case DropStrayErr => s.(held := WithoutFirst(s.held, TY_ERR))
    case Accept => Completed(s, Want(s.phase.op))
    case AcceptErr => Completed(s, TY_ERR)
    case Fail => s.(held := [], phase := Dead)
  }

  function Completed(s: Link, ty: nat): Link
    requires s.phase.Awaiting? && Holds(s.held, ty) && (ty == Want(s.phase.op) || ty == TY_ERR)
  {
    s.(held := WithoutFirst(s.held, ty), phase := Idle,
       log := s.log + [Done(s.phase.op, ResultOf(First(s.held, ty)))])
  }

  predicate Legal(inOrder: bool, s: Link, es: seq<Event>)
    decreases es
  {
    es == [] || (Can(inOrder, s, es[0]) && Legal(inOrder, Do(inOrder, s, es[0]), es[1..]))
  }

  function After(inOrder: bool, s: Link, es: seq<Event>): Link
    requires Legal(inOrder, s, es)
    decreases es
  {
    if es == [] then s else After(inOrder, Do(inOrder, s, es[0]), es[1..])
  }

  lemma {:induction false} RunConcat(inOrder: bool, s: Link, a: seq<Event>, b: seq<Event>)
    requires Legal(inOrder, s, a)
    ensures Legal(inOrder, s, a + b) <==> Legal(inOrder, After(inOrder, s, a), b)
    ensures Legal(inOrder, s, a + b) ==> After(inOrder, s, a + b) == After(inOrder, After(inOrder, s, a), b)
    decreases a
  {
    if a == [] {
      assert a + b == b;
    } else {
      RunConcat(inOrder, Do(inOrder, s, a[0]), a[1..], b);
      assert (a + b)[0] == a[0] && (a + b)[1..] == a[1..] + b;
    }
  }

  /** One more event on the end of a run. */
  lemma {:induction false} RunStep(inOrder: bool, s: Link, a: seq<Event>, e: Event)
    requires Legal(inOrder, s, a)
    ensures Legal(inOrder, s, a + [e]) <==> Can(inOrder, After(inOrder, s, a), e)
    ensures Can(inOrder, After(inOrder, s, a), e) ==> After(inOrder, s, a + [e]) == Do(inOrder, After(inOrder, s, a), e)
  {
    RunConcat(inOrder, s, a, [e]);
    assert [e][1..] == [];
  }

  // -------------------------------------------------------------------------
  // What the link promises: it behaves as plain memory.
  // -------------------------------------------------------------------------

  /** Memory after one more completed exchange, had it been plain memory. */
  function Remember(mem: seq<Page>, op: Op): (r: seq<Page>)
    ensures |r| == |mem|
  {
    if op.Write? && op.page < |mem| then mem[op.page := op.data] else mem
  }

  function Memory(mem: seq<Page>, ops: seq<Op>): (r: seq<Page>)
    ensures |r| == |mem|
  {
    if ops == [] then mem else Remember(Memory(mem, ops[..|ops| - 1]), ops[|ops| - 1])
  }

  /** What plain memory answers. */
  function Expected(mem: seq<Page>, op: Op): Outcome {
    if op.page >= |mem| then OutOfRange else if op.Read? then Fetched(mem[op.page]) else Written
  }

  function Ops(log: seq<Done>): (r: seq<Op>)
    ensures |r| == |log|
    ensures forall i :: 0 <= i < |log| ==> r[i] == log[i].op
  {
    seq(|log|, i requires 0 <= i < |log| => log[i].op)
  }

  /** Every completed exchange returned what plain memory holding `mem` at the start would have. */
  ghost predicate Coherent(mem: seq<Page>, log: seq<Done>) {
    forall i :: 0 <= i < |log| ==> log[i].outcome == Expected(Memory(mem, Ops(log[..i])), log[i].op)
  }

  // -------------------------------------------------------------------------
  // What may still be on its way when an exchange ends.
  // -------------------------------------------------------------------------

  /**
   What earlier exchanges may have left in flight. `Clear`: nothing. `Calm(Some(s))`: requests
   that change nothing, about page `s`, and their answers; `Calm(None)`: about any page.
   `Stale(q, seen)`: also an acknowledgement of the last write in range, which was of page `q`;
   if anything was asked since, it was only about page `seen`.
   */
  datatype Residue = Clear | Calm(focus: Option<nat>) | Stale(page: nat, seen: Option<nat>)

  /** An operation that changes no page: a read, or anything out of range. */
  predicate Quiet(size: nat, op: Op) {
    op.Read? || op.page >= size
  }

  /** Whether requests about a page that change nothing may be in flight. */
  predicate About(r: Residue, page: nat) {
    match r
    case Clear => false
    case Calm(focus) => focus.None? || focus.value == page
    case Stale(_, seen) => seen == Some(page)
  }

  function Track(inOrder: bool, size: nat, r: Residue, op: Op): Residue {
    if !Quiet(size, op) then Stale(op.page, None)
    else if About(r, op.page) then r
    else match r
      case Clear => Calm(Some(op.page))
      case Calm(Some(s)) => if s < size then Calm(Some(op.page)) else Calm(None)
      case Stale(q, None) => if !inOrder && op.Read? then Stale(q, Some(op.page)) else Calm(Some(op.page))
      case Stale(q, Some(s)) => if s < size then Calm(Some(op.page)) else Calm(None)
  }

  function Tracked(inOrder: bool, size: nat, ops: seq<Op>): Residue {
    if ops == [] then Clear
    else Track(inOrder, size, Tracked(inOrder, size, ops[..|ops| - 1]), ops[|ops| - 1])
  }

  /** A write an acknowledgement of an earlier write could satisfy. */
  predicate Hazard(size: nat, r: Residue, op: Op) {
    !Quiet(size, op) && r.Stale? && r.page == op.page
  }

  /** No operation of the sequence is one a stale acknowledgement could satisfy. */
  predicate Guarded(inOrder: bool, size: nat, ops: seq<Op>) {
    forall k :: 0 <= k < |ops| ==> !Hazard(size, Tracked(inOrder, size, ops[..k]), ops[k])
  }
}
