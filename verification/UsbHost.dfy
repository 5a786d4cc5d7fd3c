/**
 The badge's end of the link: the retrying exchange, and pages read and written through it.
 Every method leaves, in `Wire.run`, the events it took part in; the class invariant says
 that the fields are what those events make of the link's start.
 */
module UsbHost {
  import opened Wrappers
  import opened Frames
  import opened MuxModule
  import opened HostServe
  import opened LinkModel
  import opened LinkCoherence
  import opened Pacing
  import opened Answers

  const SPIN_TURNS: nat := 256
  const U32_MAX: nat := 0xFFFF_FFFF

  datatype BackingError = BeyondStore | MediumFailed

  /** Bytes handed over by one receive, and the frames they complete. */
  datatype Delivery = Delivery(bytes: nat, frames: seq<Frame>)

  function FramesOf(r: Option<Delivery>): seq<Frame> {
    if r.Some? then r.value.frames else []
  }

  function Sends(es: seq<Event>): nat {
    if es == [] then 0 else Sends(es[..|es| - 1]) + if es[|es| - 1].Transmit? then 1 else 0
  }

  lemma {:induction false} SendsStep(es: seq<Event>, e: Event)
    ensures Sends(es + [e]) == Sends(es) + if e.Transmit? then 1 else 0
  {
    assert (es + [e])[..|es|] == es;
  }

  /** The transport with what is beyond it: the cable, the host, and the passage of time. */
  class Wire {
    var up: seq<Frame>
    var down: seq<Frame>
    const host: Host
    var clock: nat
    var spins: nat
    ghost const init: seq<Page>
    ghost var run: seq<Event>
    /** What the client asked of the transport, in order. */
    ghost var calls: seq<Call>
    /** The frames its receives and polls handed to the client, in order. */
    ghost var got: seq<Frame>

    constructor (pages: seq<Page>)
      ensures Valid() && fresh(host) && fresh(host.mux) && State() == Start(pages)
      ensures init == pages && run == [] && calls == [] && got == []
    {
      up, down, clock, spins := [], [], 0, 0;
      init, run, calls, got := pages, [], [], [];
      host := new Host(pages);
    }

    ghost predicate Recorded()
      reads this
    {
      Legal(false, Start(init), run)
    }

    ghost function State(): Link
      reads this
      requires Recorded()
    {
      After(false, Start(init), run)
    }

    /** The copies in `calls` are the transmissions in `run`, and its readings are of this clock. */
    ghost predicate Timed()
      reads this
    {
      Ticking(calls, clock) && Copies(calls) == Sends(run)
    }

    /** The fields are what the run makes of the start, but for `pending`, received and not yet decoded. */
    ghost predicate Holding(pending: seq<Frame>)
      reads this, host, host.mux
    {
      && Recorded() && Timed()
      && State().up == up && State().down == pending + down && State().pages == host.pages
      && ServingOrder(host.mux.held) == []
    }

    ghost predicate Valid()
      reads this, host, host.mux
    {
      Holding([])
    }

    /** Only the world moved: the client holds, waits for, and has completed what it had. */
    twostate predicate WorldOnly()
      reads this
    {
      && old(Recorded()) && Recorded()
      && State().held == old(State()).held && State().phase == old(State()).phase && State().log == old(State()).log
      && Sends(run) == Sends(old(run))
    }

    ghost method Note(c: Call)
      requires Ticking(calls, clock) && (c.Clock? ==> c.ms == clock)
      modifies this`calls
      ensures calls == old(calls) + [c] && Ticking(calls, clock)
      ensures Copies(calls) == Copies(old(calls)) + if c == Handed(Sent) then 1 else 0
    {
      TickingStep(calls, c, clock);
      CopiesStep(calls, c);
      calls := calls + [c];
    }

    ghost method Record(e: Event)
      requires Recorded() && Can(false, State(), e)
      modifies this`run
      ensures Recorded() && State() == Do(false, old(State()), e)
      ensures Sends(run) == Sends(old(run)) + if e.Transmit? then 1 else 0
    {
      RunStep(false, Start(init), run, e);
      SendsStep(run, e);
      run := run + [e];
    }

    method LoseOrRepeat(repeat: bool, outbound: bool, i: nat)
      requires Valid() && i < if outbound then |up| else |down|
      modifies this
      ensures Valid() && WorldOnly() && clock == old(clock) && spins == old(spins) && calls == old(calls) && got == old(got)
    {
      if outbound {
        Record(if repeat then RepeatUp(i) else DropUp(i));
        up := if repeat then Twice(up, i) else Without(up, i);
      } else {
        assert State().down == down;
        Record(if repeat then RepeatDown(i) else DropDown(i));
        down := if repeat then Twice(down, i) else Without(down, i);
      }
    }

    method HostReads(n: nat)
      requires Valid() && n <= |up|
      modifies this, host, host.mux
      ensures Valid() && WorldOnly() && clock == old(clock) && spins == old(spins) && calls == old(calls) && got == old(got)
    {
      var batch := up[..n];
      assert State().down == down;
      Record(HostServes(n));
      var replies := host.ServeOnce(batch);
      up, down := up[n..], down + replies;
    }

    method Type(bytes: seq<bv8>)
      requires Valid()
      modifies this
      ensures Valid() && WorldOnly() && clock == old(clock) && spins == old(spins) && calls == old(calls) && got == old(got)
    {
      assert State().down == down;
      Record(HostConsole(bytes));
      down := down + [ConIn(bytes)];
    }

    /** Any number of things the cable and the host may do, in any order, while time passes. */
    method Interfere()
      requires Valid()
      modifies this, host, host.mux
      ensures Valid() && WorldOnly() && clock >= old(clock) && spins == old(spins) && calls == old(calls) && got == old(got)
    {
      var steps: int, passed: int := *, *;
      while steps > 0
        invariant Valid() && WorldOnly() && clock == old(clock) && spins == old(spins) && calls == old(calls) && got == old(got)
        decreases steps
      {
        var repeat: bool, outbound: bool, i: int, bytes: seq<bv8> := *, *, *, *;
        if {
          case 0 <= i < (if outbound then |up| else |down|) => LoseOrRepeat(repeat, outbound, i);
          case 0 <= i <= |up| => HostReads(i);
          case true => Type(bytes);
        }
        steps := steps - 1;
      }
      var later := clock + if passed > 0 then passed else 0;
      TickingOn(calls, clock, later);
      clock := later;
    }

    method Arm() returns (ok: bool)
      requires Valid()
      modifies this, host, host.mux
      ensures Valid() && WorldOnly() && clock >= old(clock) && calls == old(calls) + [Armed(ok)] && got == old(got)
    {
      Interfere();
      spins := SPIN_TURNS;
      ok := *;
      Note(Armed(ok));
    }

    method NowMs() returns (ms: nat)
      requires Valid()
      modifies this, host, host.mux
      ensures Valid() && WorldOnly() && clock == ms >= old(clock) && spins == old(spins)
      ensures calls == old(calls) + [Clock(ms)] && got == old(got)
    {
      Interfere();
      ms := clock;
      Note(Clock(ms));
    }

    /** Hands over one request. A request handed over in part never becomes a frame. */
    method Send(f: Frame) returns (r: SendResult)
      requires Valid() && State().phase.Ready? && f == Request(State().phase.op)
      modifies this, host, host.mux
      ensures Valid() && clock >= old(clock) && calls == old(calls) + [Handed(r)] && got == old(got)
      ensures State().held == old(State()).held && State().log == old(State()).log
      ensures State().phase == if r.Sent? then Awaiting(old(State()).phase.op) else old(State()).phase
      ensures Sends(run) == Sends(old(run)) + if r.Sent? then 1 else 0
    {
      Interfere();
      r := *;
      Note(Handed(r));
      if r.Sent? {
        Record(Transmit);
        up := up + [f];
      }
    }

    /** Hands over guest console output, when no request is under way. */
    method SendConsoleFrame(bytes: seq<bv8>) returns (r: SendResult)
      requires Valid() && State().phase.Idle?
      modifies this, host, host.mux
      ensures Valid() && WorldOnly() && calls == old(calls) + [Mirrored(r)] && got == old(got)
    {
      Interfere();
      r := *;
      Note(Mirrored(r));
      if r.Sent? {
        Record(SendConsole(bytes));
        up := up + [ConOut(bytes)];
      }
    }

    /** Waits a little: either a spin of the budget `Arm` gave is spent, or the clock moves. */
    method Recv() returns (r: Option<Delivery>)
      requires Valid()
      modifies this, host, host.mux
      ensures WorldOnly() && Holding(FramesOf(r))
      ensures r.Some? && r.value.bytes == 0 ==> r.value.frames == []
      ensures clock > old(clock) || (clock == old(clock) && spins < old(spins))
      ensures calls == old(calls) + [Received(r.Some?)] && got == old(got) + FramesOf(r)
    {
      var before := clock;
      r := Poll();
      if clock == before {
        TakeTurn();
      }
    }

    /** One turn of a wait without a reading in between. */
    method TakeTurn()
      requires Ticking(calls, clock)
      modifies this`clock, this`spins
      ensures Ticking(calls, clock)
      ensures clock > old(clock) || (clock == old(clock) && spins < old(spins))
    {
      if spins > 0 {
        spins := spins - 1;
      } else {
        TickingOn(calls, clock, clock + 1);
        clock := clock + 1;
      }
    }

    /** Whatever has arrived, without waiting. */
    method Poll() returns (r: Option<Delivery>)
      requires Valid()
      modifies this, host, host.mux
      ensures WorldOnly() && Holding(FramesOf(r))
      ensures r.Some? && r.value.bytes == 0 ==> r.value.frames == []
      ensures clock >= old(clock) && spins == old(spins) && calls == old(calls) + [Received(r.Some?)]
      ensures got == old(got) + FramesOf(r)
    {
      Interfere();
      var failed: bool, n: int, bytes: int := *, *, *;
      Note(Received(!failed && bytes >= 0));
      if failed || bytes < 0 {
        return None;
      }
      var frames := Arrived(if bytes == 0 || n < 0 then 0 else if n < |down| then n else |down|);
      r := Some(Delivery(bytes, frames));
    }

    method Arrived(n: nat) returns (frames: seq<Frame>)
      requires Valid() && n <= |down|
      modifies this`down, this`got
      ensures Holding(frames) && |frames| == n && got == old(got) + frames
    {
      assert State().down == down == down[..n] + down[n..];
      frames := down[..n];
      down := down[n..];
      got := got + frames;
    }
  }

  /** How one attempt ended. */
  datatype Verdict = Answer(frame: Frame) | Refusal(code: nat) | Resend | GiveUp(fault: LinkFault)

  /** The frame that ended it, when one did. */
  function Taken(v: Verdict, c: Op): Option<Frame> {
    match v
    case Answer(f) => Some(f)
    case Refusal(code) => Some(Err(code, c.page))
    case _ => None
  }

  /** What an exchange returns for the frame that ended it. */
  function Returned(f: Frame): Result<Frame, BackingError> {
    if f.Err? then Error(ErrCode(f.code)) else Ok(f)
  }

  function ErrCode(code: nat): BackingError {
    if code == ERR_READ || code == ERR_WRITE then BeyondStore else MediumFailed
  }

  function OutcomeOf(r: Result<Frame, BackingError>): Outcome {
    match r
    case Ok(f) => if f.ReadResp? then Fetched(f.data) else Written
    case Error(BeyondStore) => OutOfRange
    case Error(MediumFailed) => Medium
  }

  lemma {:induction false} OutcomeOfVerdict(c: Op, v: Verdict)
    requires v.Answer? ==> TypeByte(v.frame) == Want(c)
    ensures v.Answer? ==> OutcomeOf(Ok(v.frame)) == ResultOf(v.frame)
    ensures v.Refusal? ==> OutcomeOf(Error(ErrCode(v.code))) == ResultOf(Err(v.code, c.page))
  {
  }

  lemma {:induction false} NoneOfType(fs: seq<Frame>, ty: nat)
    requires !Holds(fs, ty)
    ensures NotOfType(fs, ty) == fs
  {
    if fs != [] {
      NoneOfType(fs[1..], ty);
    }
  }

  class LinkInner {
    const t: Wire
    var mux: Mux
    var console: seq<bv8>
    var fault: Option<LinkFault>
    /** Requests sent again, held responses purged before a send, and answers for another page dropped during a wait. */
    var retries: nat
    var staleDropped: nat
    var lateDropped: nat
    var deliveries: nat
    var bytesIn: nat

    constructor (pages: seq<Page>)
      ensures Valid() && Link() == Start(pages) && fresh(t) && fresh(mux) && fresh(t.host) && fresh(t.host.mux)
    {
      t := new Wire(pages);
      mux := new Mux();
      console, fault, retries, staleDropped, lateDropped, deliveries, bytesIn := [], None, 0, 0, 0, 0, 0;
    }

    ghost predicate Decoding(pending: seq<Frame>)
      reads this, mux, t, t.host, t.host.mux
    {
      mux != t.host.mux && t.Holding(pending) && t.State().held == mux.held && mux.console == []
    }

    ghost predicate Valid()
      reads this, mux, t, t.host, t.host.mux
    {
      Decoding([])
    }

    /** The link as its run left it. */
    ghost function Link(): Link
      reads this, t
      requires t.Recorded()
    {
      t.State()
    }

    method TakeAll(ty: nat) returns (n: nat)
      modifies mux
      ensures mux.held == NotOfType(old(mux.held), ty) && n == |old(mux.held)| - |mux.held|
      ensures mux.console == old(mux.console)
    {
      n := 0;
      if Holds(mux.held, ty) {
        WithoutFirstOthers(mux.held, ty, ty + 1);
      }
      var r := mux.TakeMatching(ty);
      while r.Some?
        invariant n + |mux.held| + (if r.Some? then 1 else 0) == |old(mux.held)|
        invariant NotOfType(mux.held, ty) == NotOfType(old(mux.held), ty)
        invariant r.None? ==> !Holds(mux.held, ty)
        invariant mux.console == old(mux.console)
        decreases |mux.held| + if r.Some? then 1 else 0
      {
        n := n + 1;
        if Holds(mux.held, ty) {
          WithoutFirstOthers(mux.held, ty, ty + 1);
        }
        r := mux.TakeMatching(ty);
      }
      NoneOfType(mux.held, ty);
    }

    /** Drops the responses left over from an earlier exchange or attempt. */
    method DiscardStaleResponses() returns (n: nat)
      requires Valid() && (Link().phase.Opened? || Link().phase.Awaiting?)
      modifies mux, t`run
      ensures Valid() && Link() == Do(false, old(Link()), Purge) && Sends(t.run) == Sends(old(t.run))
      ensures mux.held == Purged(old(mux.held)) && n == |old(mux.held)| - |mux.held|
    {
      var a := TakeAll(TY_READ_RESP);
      var b := TakeAll(TY_WRITE_ACK);
      var c := TakeAll(TY_ERR);
      n := a + b + c;
      assert t.State().down == t.down;
      t.Record(Purge);
    }

    /** Decodes one delivery, moving console payloads aside. */
    method Absorb(d: Delivery)
      requires Decoding(d.frames) && (Link().phase.Idle? || Link().phase.Awaiting?)
      modifies this`deliveries, this`bytesIn, this`console, mux, t`run
      ensures Valid() && Link() == Do(false, old(Link()), Event.Absorb(|d.frames|)) && Sends(t.run) == Sends(old(t.run))
      ensures console == old(console) + ConsoleBytes(d.frames) && mux.held == old(mux.held) + PageFrames(d.frames)
      ensures deliveries == old(deliveries) + 1 && bytesIn == old(bytesIn) + d.bytes
    {
      deliveries := deliveries + 1;
      bytesIn := bytesIn + d.bytes;
      RecordDelivery(d.frames);
      mux.Push(d.frames);
      assert [] + ConsoleBytes(d.frames) == ConsoleBytes(d.frames);
      var con := mux.TakeConsole();
      console := console + con;
    }

    ghost method RecordDelivery(frames: seq<Frame>)
      requires t.Holding(frames) && (Link().phase.Idle? || Link().phase.Awaiting?)
      modifies t`run
      ensures t.Holding([]) && Link() == Do(false, old(Link()), Event.Absorb(|frames|)) && Sends(t.run) == Sends(old(t.run))
      ensures Link().held == old(Link()).held + PageFrames(frames)
    {
      var down := t.State().down;
      assert down[..|frames|] == frames && down[|frames|..] == t.down;
      t.Record(Event.Absorb(|frames|));
      assert [] + t.down == t.down;
    }

    /** An empty delivery only means that nothing has come yet. */
    method TakeIn(d: Delivery)
      requires Decoding(d.frames) && (Link().phase.Idle? || Link().phase.Awaiting?) && (d.bytes == 0 ==> d.frames == [])
      modifies this`deliveries, this`bytesIn, this`console, mux, t`run
      ensures Valid() && Sends(t.run) == Sends(old(t.run))
      ensures Link().phase == old(Link()).phase && Link().log == old(Link()).log
      ensures console == old(console) + ConsoleBytes(d.frames) && mux.held == old(mux.held) + PageFrames(d.frames)
      ensures deliveries == old(deliveries) + (if d.bytes != 0 then 1 else 0) && bytesIn == old(bytesIn) + d.bytes
    {
      if d.bytes != 0 {
        Absorb(d);
      }
    }

    /** Drops everything the decoder holds after rescuing console bytes, and records why. */
    method Fail(f: LinkFault)
      requires Valid() && (Link().phase.Opened? || Link().phase.Ready? || Link().phase.Awaiting?)
      modifies this`console, this`fault, this`mux, mux, t`run
      ensures Valid() && fresh(mux) && Link() == Do(false, old(Link()), Event.Fail) && Sends(t.run) == Sends(old(t.run))
      ensures fault == Some(f) && console == old(console)
    {
      var con := mux.TakeConsole();
      console := console + con;
      assert t.State().down == t.down;
      t.Record(Event.Fail);
      mux := new Mux();
      fault := Some(f);
    }

    /** One look at the held frames for an answer to `c`. */
    method TakeAnswer(c: Op) returns (turn: Turn)
      requires Valid() && Link().phase == Awaiting(c)
      modifies this`lateDropped, mux, t`run
      ensures Valid() && Sends(t.run) == Sends(old(t.run))
      ensures lateDropped == old(lateDropped) + if turn.Mismatch? then 1 else 0
      ensures turn.Answered? ==> TypeByte(turn.frame) == Want(c) && turn.frame.page == c.page
      ensures turn.Answered? || turn.Refused? ==>
                var f := if turn.Answered? then turn.frame else Err(turn.code, c.page);
                Link().phase.Idle? && Link().log == old(Link()).log + [Done(c, ResultOf(f))]
      ensures !turn.Answered? && !turn.Refused? ==> Link().phase == Awaiting(c) && Link().log == old(Link()).log
      ensures turn == Look(c, old(mux.held)) && mux.held == Left(c, old(mux.held))
      ensures !turn.Nothing? ==> |mux.held| < |old(mux.held)|
    {
      assert t.State().down == t.down;
      var r := mux.TakeMatching(Want(c));
      if r.Some? {
        if r.value.page == c.page {
          t.Record(Accept);
          return Answered(r.value);
        }
        lateDropped := lateDropped + 1;
        t.Record(DropMismatch);
        return Mismatch(r.value.page);
      }
      r := mux.TakeMatching(TY_ERR);
      if r.Some? {
        if r.value.page == c.page {
          t.Record(AcceptErr);
          return Refused(r.value.code);
        }
        t.Record(DropStrayErr);
        return Stray;
      }
      return Nothing;
    }

    /** The same, with what it tells about everything heard since the purge that left `base`. */
    method LookOnce(c: Op, ghost base: seq<Frame>, ghost heard: seq<Frame>, ghost w: int, ghost last: nat, ghost none: nat) returns (turn: Turn)
      requires Valid() && Link().phase == Awaiting(c) && Sifted(c, base, heard, mux.held, w, last, none)
      modifies this`lateDropped, mux, t`run
      ensures Valid() && Sends(t.run) == Sends(old(t.run))
      ensures lateDropped == old(lateDropped) + if turn.Mismatch? then 1 else 0
      ensures turn.Answered? ==> TypeByte(turn.frame) == Want(c) && turn.frame.page == c.page
      ensures turn.Answered? || turn.Refused? ==>
                var f := if turn.Answered? then turn.frame else Err(turn.code, c.page);
                && Link().phase.Idle? && Link().log == old(Link()).log + [Done(c, ResultOf(f))]
                && AnswerIn(c, heard) == Some(f) && Purged(mux.held) == Purged(base + PageFrames(heard))
      ensures !turn.Answered? && !turn.Refused? ==>
                && Link().phase == Awaiting(c) && Link().log == old(Link()).log
                && Sifted(c, base, heard, mux.held, w + (if turn.Mismatch? then 1 else 0), if turn.Mismatch? then turn.page else last, none)
      ensures turn.Nothing? ==> AnswerIn(c, heard) == None && Strays(c, heard, w, last, none)
      ensures if turn.Nothing? then |mux.held| == |old(mux.held)| else |mux.held| < |old(mux.held)|
    {
      turn := TakeAnswer(c);
      match turn {
        case Answered(_) => LookAnswered(c, base, heard, old(mux.held), w, last, none);
        case Refused(_) => LookRefused(c, base, heard, old(mux.held), w, last, none);
        case Mismatch(_) => LookMismatched(c, base, heard, old(mux.held), w, last, none);
        case Stray => LookStray(c, base, heard, old(mux.held), w, last, none);
        case Nothing => LookNothing(c, base, heard, old(mux.held), w, last, none);
      }
    }

    /** Nothing held answers `c`: give up, send again, or receive once more. */
    method Wait(c: Op, attempts: nat, began: nat, sentAt: nat, ghost past: seq<Call>, ghost at: nat)
      returns (v: Option<Verdict>, ghost frames: seq<Frame>)
      requires Valid() && Link().phase == Awaiting(c) && attempts <= RETRY_BUDGET + 1
      requires Exchanging(past, t.calls, began) && Waiting(t.calls, |past|, at, sentAt)
      modifies this`deliveries, this`bytesIn, this`console, this`retries
      modifies mux, t, t.host, t.host.mux
      ensures Valid() && Sends(t.run) == Sends(old(t.run)) && t.clock >= old(t.clock)
      ensures Link().phase == Awaiting(c) && Link().log == old(Link()).log
      ensures retries == old(retries) + if v == Some(Resend) then 1 else 0
      ensures v.None? ==> old(t.clock) <= sentAt + ATTEMPT_DEADLINE_MS
      ensures v.None? ==> t.clock > old(t.clock) || (t.clock == old(t.clock) && t.spins < old(t.spins))
      ensures v.Some? ==> v.value.Resend? || (v.value.GiveUp? && (v.value.fault.Timeout? || v.value.fault.RecvFailed?))
      ensures Exchanging(past, t.calls, began)
      ensures v.None? ==> Waiting(t.calls, |past|, at, sentAt)
      ensures v == Some(Resend) ==> attempts <= RETRY_BUDGET && MaySend(t.calls, |past|)
      ensures v.Some? && v.value.GiveUp? ==> Cause(t.calls, |past|, attempts, v.value.fault)
      ensures t.got == old(t.got) + frames && mux.held == old(mux.held) + PageFrames(frames)
      ensures console == old(console) + ConsoleBytes(frames) && (v.Some? ==> frames == [])
    {
      frames := [];
      ghost var before := t.calls;
      var now := t.NowMs();
      StillGoing(past, before, began, Clock(now));
      StillWaiting(before, |past|, at, sentAt, Clock(now));
      var elapsed, waited := Since(began, now), Since(sentAt, now);
      if elapsed > RECV_DEADLINE_MS {
        return Some(GiveUp(Timeout(attempts, elapsed, waited, deliveries, bytesIn))), [];
      }
      if waited > ATTEMPT_DEADLINE_MS {
        if attempts > RETRY_BUDGET {
          return Some(GiveUp(Timeout(attempts, elapsed, waited, deliveries, bytesIn))), [];
        }
        WaitedTooLong(before, |past|, at, sentAt, now);
        retries := retries + 1;
        return Some(Resend), [];
      }
      before := t.calls;
      var received;
      received, frames := Receive(c);
      StillGoing(past, before, began, Received(received));
      StillWaiting(before, |past|, at, sentAt, Received(received));
      v := if received then None else Some(GiveUp(RecvFailed));
    }

    /** The same, adding what it receives to what has been heard. */
    method WaitMore(c: Op, attempts: nat, began: nat, sentAt: nat, ghost past: seq<Call>, ghost at: nat,
                    ghost base: seq<Frame>, ghost heard: seq<Frame>, ghost w: int, ghost last: nat, ghost none: nat, ghost got: seq<Frame>, ghost shown: seq<bv8>)
      returns (v: Option<Verdict>, ghost all: seq<Frame>)
      requires Valid() && Link().phase == Awaiting(c) && attempts <= RETRY_BUDGET + 1
      requires Exchanging(past, t.calls, began) && Waiting(t.calls, |past|, at, sentAt)
      requires Sifted(c, base, heard, mux.held, w, last, none) && t.got == got + heard && console == shown + ConsoleBytes(heard)
      modifies this`deliveries, this`bytesIn, this`console, this`retries
      modifies mux, t, t.host, t.host.mux
      ensures Valid() && Sends(t.run) == Sends(old(t.run)) && t.clock >= old(t.clock)
      ensures Link().phase == Awaiting(c) && Link().log == old(Link()).log
      ensures retries == old(retries) + if v == Some(Resend) then 1 else 0
      ensures v.None? ==> old(t.clock) <= sentAt + ATTEMPT_DEADLINE_MS
      ensures v.None? ==> t.clock > old(t.clock) || (t.clock == old(t.clock) && t.spins < old(t.spins))
      ensures v.Some? ==> v.value.Resend? || (v.value.GiveUp? && (v.value.fault.Timeout? || v.value.fault.RecvFailed?))
      ensures Exchanging(past, t.calls, began)
      ensures v.None? ==> Waiting(t.calls, |past|, at, sentAt)
      ensures v == Some(Resend) ==> attempts <= RETRY_BUDGET && MaySend(t.calls, |past|)
      ensures v.Some? && v.value.GiveUp? ==> Cause(t.calls, |past|, attempts, v.value.fault)
      ensures Sifted(c, base, all, mux.held, w, last, none) && t.got == got + all && console == shown + ConsoleBytes(all)
      ensures v.Some? ==> all == heard && Purged(mux.held) == Purged(base + PageFrames(all))
    {
      ghost var frames;
      v, frames := Wait(c, attempts, began, sentAt, past, at);
      HeardMore(c, base, heard, old(mux.held), w, last, none, frames, got, shown);
      all := heard + frames;
    }

    /** Receives once more and decodes what came; false when the receive itself failed. */
    method Receive(c: Op) returns (ok: bool, ghost frames: seq<Frame>)
      requires Valid() && Link().phase == Awaiting(c)
      modifies this`deliveries, this`bytesIn, this`console, mux, t, t.host, t.host.mux
      ensures Valid() && Sends(t.run) == Sends(old(t.run)) && Link().phase == Awaiting(c) && Link().log == old(Link()).log
      ensures t.clock > old(t.clock) || (t.clock == old(t.clock) && t.spins < old(t.spins))
      ensures t.calls == old(t.calls) + [Received(ok)]
      ensures t.got == old(t.got) + frames && mux.held == old(mux.held) + PageFrames(frames)
      ensures console == old(console) + ConsoleBytes(frames) && (!ok ==> frames == [])
    {
      var d := t.Recv();
      frames := FramesOf(d);
      if d.None? {
        return false, frames;
      }
      TakeIn(d.value);
      return true, frames;
    }

    /** One turn of a wait: a look, and when there is nothing to look at, a receive. */
    method OneTurn(c: Op, attempts: nat, began: nat, sentAt: nat, mismatched: nat, last: nat, ghost past: seq<Call>, ghost at: nat,
                   ghost base: seq<Frame>, ghost heard: seq<Frame>, ghost w: int, ghost none: nat, ghost got: seq<Frame>, ghost shown: seq<bv8>)
      returns (v: Option<Verdict>, nowMismatched: nat, nowLast: nat, ghost all: seq<Frame>)
      requires Valid() && Link().phase == Awaiting(c) && attempts <= RETRY_BUDGET + 1
      requires Exchanging(past, t.calls, began) && Waiting(t.calls, |past|, at, sentAt)
      requires Sifted(c, base, heard, mux.held, w, last, none) && t.got == got + heard && console == shown + ConsoleBytes(heard)
      modifies this`lateDropped, this`deliveries, this`bytesIn, this`console, this`retries
      modifies mux, t, t.host, t.host.mux
      ensures Valid() && Sends(t.run) == Sends(old(t.run)) && t.clock >= old(t.clock) && Exchanging(past, t.calls, began)
      ensures lateDropped - old(lateDropped) == nowMismatched - mismatched >= 0
      ensures retries == old(retries) + if v == Some(Resend) then 1 else 0
      ensures t.got == got + all && console == shown + ConsoleBytes(all)
      ensures v.None? ==>
                && Link().phase == Awaiting(c) && Link().log == old(Link()).log && Waiting(t.calls, |past|, at, sentAt)
                && Sifted(c, base, all, mux.held, w + nowMismatched - mismatched, nowLast, none)
      ensures v.None? ==>
                || (old(t.clock) <= sentAt + ATTEMPT_DEADLINE_MS && (t.clock > old(t.clock) || (t.clock == old(t.clock) && t.spins < old(t.spins))))
                || (t.clock == old(t.clock) && t.spins == old(t.spins) && |mux.held| < |old(mux.held)|)
      ensures v.Some? ==> Over(c, v.value, old(Link()).log, attempts, past)
      ensures v.Some? ==> AnswerIn(c, all) == Taken(v.value, c) && Purged(mux.held) == Purged(base + PageFrames(all))
      ensures v.Some? && (v.value.Resend? || v.value.GiveUp?) ==> Strays(c, all, w + nowMismatched - mismatched, nowLast, none)
    {
      hide Sifted, Strays, Purged, AnswerIn, Legal, After, Sends, Ticking, Copies;
      nowMismatched, nowLast, all := mismatched, last, heard;
      var turn := LookOnce(c, base, heard, w, last, none);
      if turn.Answered? {
        v := Some(Answer(turn.frame));
      } else if turn.Refused? {
        v := Some(Refusal(turn.code));
      } else if turn.Mismatch? {
        v, nowMismatched, nowLast := None, mismatched + 1, turn.page;
      } else if turn.Stray? {
        v := None;
      } else {
        v, all := WaitMore(c, attempts, began, sentAt, past, at, base, heard, w, last, none, got, shown);
      }
    }

    /** How the log, the phase and the calls stand when a wait has ended. */
    ghost predicate Over(c: Op, v: Verdict, log: seq<Done>, attempts: nat, past: seq<Call>)
      requires t.Recorded() && |past| < |t.calls| && t.calls[|past|].Clock?
      reads this, t
    {
      && (v.Answer? ==> TypeByte(v.frame) == Want(c) && v.frame.page == c.page)
      && (v.Answer? || v.Refusal? ==>
            var f := if v.Answer? then v.frame else Err(v.code, c.page);
            Link().phase.Idle? && Link().log == log + [Done(c, ResultOf(f))])
      && (v.Resend? || v.GiveUp? ==> Link().phase == Awaiting(c) && Link().log == log)
      && (v.Resend? ==> attempts <= RETRY_BUDGET && MaySend(t.calls, |past|))
      && (v.GiveUp? ==> (v.fault.Timeout? || v.fault.RecvFailed?) && Cause(t.calls, |past|, attempts, v.fault))
    }

    /** Waits for an answer to the copy just sent, until it comes or the attempt has run out. */
    method Await(c: Op, attempts: nat, began: nat, sentAt: nat, mismatched: nat, lastMismatch: nat, ghost past: seq<Call>, ghost at: nat)
      returns (v: Verdict, nowMismatched: nat, nowLast: nat, ghost heard: seq<Frame>)
      requires Sifted(c, mux.held, [], mux.held, 0, lastMismatch, lastMismatch)
      requires Valid() && Link().phase == Awaiting(c) && attempts <= RETRY_BUDGET + 1
      requires Exchanging(past, t.calls, began) && Waiting(t.calls, |past|, at, sentAt)
      modifies this`lateDropped, this`deliveries, this`bytesIn, this`console, this`retries
      modifies mux, t, t.host, t.host.mux
      ensures Valid() && Sends(t.run) == Sends(old(t.run)) && t.clock >= old(t.clock)
      ensures lateDropped - old(lateDropped) == nowMismatched - mismatched >= 0
      ensures retries == old(retries) + if v.Resend? then 1 else 0
      ensures Exchanging(past, t.calls, began) && Over(c, v, old(Link()).log, attempts, past)
      ensures t.got == old(t.got) + heard && console == old(console) + ConsoleBytes(heard)
      ensures AnswerIn(c, heard) == Taken(v, c) && Purged(mux.held) == Purged(old(mux.held) + PageFrames(heard))
      ensures v.Resend? || v.GiveUp? ==> Strays(c, heard, nowMismatched - mismatched, nowLast, lastMismatch)
    {
      hide Sifted, Strays, Purged, AnswerIn, Legal, After, Sends, Ticking, Copies;
      nowMismatched, nowLast, heard := mismatched, lastMismatch, [];
      ghost var base := mux.held;
      var until := sentAt + ATTEMPT_DEADLINE_MS + 1;
      while true
        invariant Valid() && Sends(t.run) == Sends(old(t.run)) && t.clock >= old(t.clock)
        invariant Link().phase == Awaiting(c) && Link().log == old(Link()).log
        invariant lateDropped - old(lateDropped) == nowMismatched - mismatched >= 0
        invariant retries == old(retries)
        invariant Exchanging(past, t.calls, began) && Waiting(t.calls, |past|, at, sentAt)
        invariant t.got == old(t.got) + heard && console == old(console) + ConsoleBytes(heard)
        invariant Sifted(c, base, heard, mux.held, nowMismatched - mismatched, nowLast, lastMismatch)
        decreases if t.clock < until then until - t.clock else 0, t.spins, |mux.held|
      {
        var ended;
        ended, nowMismatched, nowLast, heard := OneTurn(c, attempts, began, sentAt, nowMismatched, nowLast, past, at,
                                                        base, heard, nowMismatched - mismatched, lastMismatch, old(t.got), old(console));
        if ended.Some? {
          return ended.value, nowMismatched, nowLast, heard;
        }
      }
    }

    /** Reads the clock; the fault, when that finds the deadline passed. */
    method PastDeadline(attempts: nat, began: nat, ghost past: seq<Call>) returns (f: Option<LinkFault>, ghost now: nat)
      requires Valid() && Exchanging(past, t.calls, began)
      modifies t, t.host, t.host.mux
      ensures Valid() && t.WorldOnly() && t.got == old(t.got)
      ensures t.calls == old(t.calls) + [Clock(now)] && Exchanging(past, t.calls, began)
      ensures old(MaySend(t.calls, |past|)) ==> MaySend(t.calls, |past|)
      ensures f.None? ==> now <= began + RECV_DEADLINE_MS
      ensures f.Some? ==> Stopped(t.calls, |past|, f.value)
    {
      var ms := t.NowMs();
      StillGoing(past, old(t.calls), began, Clock(ms));
      if old(MaySend(t.calls, |past|)) {
        StillMaySend(old(t.calls), |past|, Clock(ms));
      }
      var elapsed := Since(began, ms);
      if elapsed > RECV_DEADLINE_MS {
        return Some(Timeout(attempts, elapsed, elapsed, deliveries, bytesIn)), ms;
      }
      return None, ms;
    }

    method Refresh(c: Op)
      requires Valid() && (Link().phase == Opened(c) || Link().phase == Awaiting(c))
      modifies this`staleDropped, mux, t`run
      ensures Valid() && Link().log == old(Link()).log && Link().phase == Ready(c)
      ensures Sends(t.run) == Sends(old(t.run)) && staleDropped == old(staleDropped) + |old(mux.held)| - |mux.held|
      ensures mux.held == Purged(old(mux.held))
    {
      var stale := DiscardStaleResponses();
      staleDropped := staleDropped + stale;
    }

    /** Purges and arms, unless the deadline has already passed. */
    method Prepare(c: Op, attempts: nat, began: nat, ghost past: seq<Call>) returns (f: Option<LinkFault>)
      requires Valid() && (Link().phase == Opened(c) || Link().phase == Awaiting(c))
      requires Exchanging(past, t.calls, began) && MaySend(t.calls, |past|)
      modifies this`staleDropped, mux, t, t.host, t.host.mux
      ensures Valid() && Link().log == old(Link()).log && Link().phase == Ready(c)
      ensures Sends(t.run) == Sends(old(t.run)) && t.got == old(t.got) && mux.held == Purged(old(mux.held))
      ensures staleDropped == old(staleDropped) + |old(mux.held)| - |mux.held|
      ensures if f.None? then InTurn(past, t.calls, began) else Exchanging(past, t.calls, began) && Stopped(t.calls, |past|, f.value)
    {
      Refresh(c);
      ghost var now;
      f, now := PastDeadline(attempts, began, past);
      if f.None? {
        f := Park(attempts, began, past);
      }
    }

    /** Parks a listener, and reads the clock again: parking may have taken a while. */
    method Park(attempts: nat, began: nat, ghost past: seq<Call>) returns (f: Option<LinkFault>)
      requires Valid() && Exchanging(past, t.calls, began) && MaySend(t.calls, |past|)
      modifies t, t.host, t.host.mux
      ensures Valid() && t.WorldOnly() && t.got == old(t.got)
      ensures if f.None? then InTurn(past, t.calls, began) else Exchanging(past, t.calls, began) && Stopped(t.calls, |past|, f.value)
    {
      var armed := t.Arm();
      StillGoing(past, old(t.calls), began, Armed(armed));
      StillMaySend(old(t.calls), |past|, Armed(armed));
      if !armed {
        return Some(NotParked);
      }
      ghost var now;
      f, now := PastDeadline(attempts, began, past);
    }

    /** Hands one copy over; a failure is that of the hand-over. */
    method HandOver(c: Op, began: nat, ghost past: seq<Call>) returns (f: Option<LinkFault>)
      requires Valid() && Link().phase == Ready(c) && InTurn(past, t.calls, began)
      modifies t, t.host, t.host.mux
      ensures Valid() && Link().log == old(Link()).log && Link().phase == (if f.None? then Awaiting(c) else Ready(c))
      ensures Sends(t.run) == Sends(old(t.run)) + (if f.None? then 1 else 0) && t.got == old(t.got)
      ensures Exchanging(past, t.calls, began)
      ensures if f.None? then JustSent(t.calls) else Stopped(t.calls, |past|, f.value)
    {
      var sent := t.Send(Request(c));
      CopyHandedOver(past, old(t.calls), began, sent);
      f := FaultOf(sent);
    }

    /** Sends one copy of the request, if it may still be sent. */
    method SendCopy(c: Op, attempts: nat, began: nat, ghost past: seq<Call>) returns (f: Option<LinkFault>)
      requires Valid() && (Link().phase == Opened(c) || Link().phase == Awaiting(c))
      requires Exchanging(past, t.calls, began) && MaySend(t.calls, |past|)
      modifies this`staleDropped, mux, t, t.host, t.host.mux
      ensures Valid() && Link().log == old(Link()).log && Link().phase == (if f.None? then Awaiting(c) else Ready(c))
      ensures Sends(t.run) == Sends(old(t.run)) + (if f.None? then 1 else 0) && t.got == old(t.got)
      ensures mux.held == Purged(old(mux.held)) && staleDropped == old(staleDropped) + |old(mux.held)| - |mux.held|
      ensures Exchanging(past, t.calls, began)
      ensures if f.None? then JustSent(t.calls) else Stopped(t.calls, |past|, f.value)
    {
      f := Prepare(c, attempts, began, past);
      if f.None? {
        f := HandOver(c, began, past);
      }
    }

    /** The time from which the answer to the copy just sent is waited for. */
    method TimeWait(began: nat, ghost past: seq<Call>) returns (sentAt: nat, ghost at: nat)
      requires Valid() && Exchanging(past, t.calls, began) && JustSent(t.calls)
      modifies t, t.host, t.host.mux
      ensures Valid() && t.WorldOnly() && t.got == old(t.got) && Exchanging(past, t.calls, began) && Waiting(t.calls, |past|, at, sentAt)
    {
      at := |t.calls| - 1;
      sentAt := t.NowMs();
      NowWaiting(past, old(t.calls), began, sentAt);
    }

    /** One attempt: a copy sent, if time allows, and the wait for its answer. */
    method Attempt(c: Op, attempts: nat, began: nat, mismatched: nat, lastMismatch: nat, ghost past: seq<Call>)
      returns (v: Verdict, nowMismatched: nat, nowLast: nat, ghost heard: seq<Frame>)
      requires Valid() && (Link().phase == Opened(c) || Link().phase == Awaiting(c)) && attempts <= RETRY_BUDGET + 1
      requires Exchanging(past, t.calls, began) && MaySend(t.calls, |past|)
      modifies this`staleDropped, this`lateDropped, this`deliveries, this`bytesIn, this`console, this`retries
      modifies mux, t, t.host, t.host.mux
      ensures Valid() && Sends(t.run) == Sends(old(t.run)) + if v.GiveUp? && Link().phase.Ready? then 0 else 1
      ensures lateDropped - old(lateDropped) == nowMismatched - mismatched >= 0
      ensures retries == old(retries) + if v.Resend? then 1 else 0
      ensures v.Resend? ==> Link().phase == Awaiting(c) && Link().log == old(Link()).log
      ensures v.GiveUp? ==> Link().log == old(Link()).log && !v.fault.WrongPage?
      ensures v.GiveUp? ==> Link().phase == Awaiting(c) || Link().phase == Ready(c)
      ensures v.Answer? ==> TypeByte(v.frame) == Want(c) && v.frame.page == c.page
      ensures v.Answer? || v.Refusal? ==>
                var f := if v.Answer? then v.frame else Err(v.code, c.page);
                Link().phase.Idle? && Link().log == old(Link()).log + [Done(c, ResultOf(f))]
      ensures Exchanging(past, t.calls, began)
      ensures v.Resend? ==> attempts <= RETRY_BUDGET && MaySend(t.calls, |past|)
      ensures v.GiveUp? ==> Cause(t.calls, |past|, attempts - 1 + Sends(t.run) - Sends(old(t.run)), v.fault)
      ensures t.got == old(t.got) + heard && console == old(console) + ConsoleBytes(heard)
      ensures AnswerIn(c, heard) == Taken(v, c) && Purged(mux.held) == Purged(Purged(old(mux.held)) + PageFrames(heard))
      ensures v.Resend? || v.GiveUp? ==> Strays(c, heard, nowMismatched - mismatched, nowLast, lastMismatch)
    {
      hide AnswerIn, Purged, Strays, Sifted, Cause, Stopped, MaySend, ConsoleBytes, PageFrames, Legal, After, Sends, Ticking, Copies;
      nowMismatched, nowLast, heard := mismatched, lastMismatch, [];
      var f := SendCopy(c, attempts, began, past);
      if f.Some? {
        StoppedIsCause(t.calls, |past|, attempts - 1, f.value);
        NothingHeard(c, old(mux.held), lastMismatch);
        return GiveUp(f.value), nowMismatched, nowLast, heard;
      }
      var sentAt;
      ghost var at;
      sentAt, at := TimeWait(began, past);
      SiftStart(c, old(mux.held), lastMismatch);
      v, nowMismatched, nowLast, heard := Await(c, attempts, began, sentAt, mismatched, lastMismatch, past, at);
    }

    /** Attempts until one is answered or gives up. */
    method Attempts(c: Op, began: nat, ghost past: seq<Call>) returns (v: Verdict, mismatched: nat, last: nat, ghost heard: seq<Frame>)
      requires Valid() && Link().phase == Opened(c)
      requires Exchanging(past, t.calls, began) && MaySend(t.calls, |past|)
      modifies this`staleDropped, this`lateDropped, this`deliveries, this`bytesIn, this`console, this`retries
      modifies mux, t, t.host, t.host.mux
      ensures Valid() && !v.Resend?
      ensures v.GiveUp? ==> Link().log == old(Link()).log && !v.fault.WrongPage?
      ensures v.GiveUp? ==> Link().phase == Awaiting(c) || Link().phase == Ready(c)
      ensures v.Answer? ==> TypeByte(v.frame) == Want(c) && v.frame.page == c.page
      ensures v.Answer? || v.Refusal? ==>
                var f := if v.Answer? then v.frame else Err(v.code, c.page);
                Link().phase.Idle? && Link().log == old(Link()).log + [Done(c, ResultOf(f))]
      ensures var copies := Sends(t.run) - Sends(old(t.run));
              && 0 <= copies <= RETRY_BUDGET + 1
              && copies == retries - old(retries) + if v.GiveUp? && Link().phase.Ready? then 0 else 1
      ensures lateDropped - old(lateDropped) == mismatched
      ensures Paced(past, t.calls)
      ensures v.GiveUp? ==> Cause(t.calls, |past|, Sends(t.run) - Sends(old(t.run)), v.fault)
      ensures t.got == old(t.got) + heard && console == old(console) + ConsoleBytes(heard)
      ensures AnswerIn(c, heard) == Taken(v, c) && Purged(mux.held) == Purged(old(mux.held) + PageFrames(heard))
      ensures v.GiveUp? ==> Strays(c, heard, mismatched, last, U32_MAX)
    {
      hide AnswerIn, Purged, PageFrames, ConsoleBytes, Strays, Cause, MaySend, Legal, After, Sends, Ticking, Copies;
      var attempts := 0;
      v, mismatched, last, heard := Resend, 0, U32_MAX, [];
      NoAttemptYet(c, mux.held, U32_MAX);
      while v.Resend?
        invariant Valid()
        invariant v.Resend? ==> Link().phase == Opened(c) || Link().phase == Awaiting(c)
        invariant v.GiveUp? ==> (Link().phase == Awaiting(c) || Link().phase == Ready(c)) && !v.fault.WrongPage?
        invariant v.Resend? || v.GiveUp? ==> Link().log == old(Link()).log
        invariant v.Answer? ==> TypeByte(v.frame) == Want(c) && v.frame.page == c.page
        invariant v.Answer? || v.Refusal? ==>
                    var f := if v.Answer? then v.frame else Err(v.code, c.page);
                    Link().phase.Idle? && Link().log == old(Link()).log + [Done(c, ResultOf(f))]
        invariant attempts <= RETRY_BUDGET + 1
        invariant v.Resend? ==> attempts == Sends(t.run) - Sends(old(t.run)) == retries - old(retries) <= RETRY_BUDGET
        invariant !v.Resend? ==>
                    var copies := Sends(t.run) - Sends(old(t.run));
                    && 0 <= copies <= attempts && retries - old(retries) == attempts - 1
                    && copies == retries - old(retries) + if v.GiveUp? && Link().phase.Ready? then 0 else 1
        invariant lateDropped - old(lateDropped) == mismatched
        invariant Exchanging(past, t.calls, began)
        invariant v.Resend? ==> MaySend(t.calls, |past|)
        invariant v.GiveUp? ==> Cause(t.calls, |past|, Sends(t.run) - Sends(old(t.run)), v.fault)
        invariant t.got == old(t.got) + heard && console == old(console) + ConsoleBytes(heard)
        invariant AnswerIn(c, heard) == Taken(v, c) && Purged(mux.held) == Purged(old(mux.held) + PageFrames(heard))
        invariant v.Resend? || v.GiveUp? ==> Strays(c, heard, mismatched, last, U32_MAX)
        decreases RETRY_BUDGET + 1 - attempts, v.Resend?
      {
        attempts := attempts + 1;
        ghost var held, before, lately := mux.held, mismatched, last;
        ghost var more;
        v, mismatched, last, more := Attempt(c, attempts, began, mismatched, last, past);
        OneMoreAttempt(c, old(mux.held), heard, held, more, mux.held, old(t.got), old(console));
        if v.Resend? || v.GiveUp? {
          LaterStrays(c, heard, before, lately, U32_MAX, more, mismatched - before, last);
        }
        heard := heard + more;
      }
      Ended(past, t.calls, began, t.clock);
    }

    /** The exchange begins, at the returned time. */
    method Open(c: Op) returns (began: nat)
      requires Valid() && Link().phase.Idle?
      modifies t, t.host, t.host.mux
      ensures Valid() && Link().phase == Opened(c) && Link().log == old(Link()).log && Sends(t.run) == Sends(old(t.run))
      ensures t.got == old(t.got)
      ensures Exchanging(old(t.calls), t.calls, began) && MaySend(t.calls, |old(t.calls)|)
    {
      assert t.State().down == t.down;
      t.Record(Begin(c));
      began := t.NowMs();
      FirstReading(old(t.calls), began);
    }

    /** Ends the link; a timeout during which wrong pages came is reported as such. */
    method GiveUpOn(c: Op, why: LinkFault, mismatched: nat, last: nat, ghost past: seq<Call>, ghost copies: int)
      requires Valid() && (Link().phase.Opened? || Link().phase.Ready? || Link().phase.Awaiting?) && !why.WrongPage?
      requires Paced(past, t.calls) && Cause(t.calls, |past|, copies, why)
      modifies this`console, this`fault, this`mux, mux, t`run
      ensures Valid() && fresh(mux) && Link().phase.Dead? && Link().log == old(Link()).log && Sends(t.run) == Sends(old(t.run))
      ensures fault == Some(Reported(why, mismatched, c.page, last)) && console == old(console)
      ensures Cause(t.calls, |past|, copies, fault.value)
    {
      hide Cause, Legal, After, Sends, Ticking, Copies;
      ReportedCause(t.calls, |past|, copies, why, mismatched, c.page, last);
      Fail(Reported(why, mismatched, c.page, last));
    }

    /**
     Sends the request of `c` and waits for its answer, sending again up to `RETRY_BUDGET` times.
     The calls it adds to the transport's begin with a reading; every copy is in time, and in
     turn; and a link given up on is given up for the cause its fault names. What it returns is
     settled by the frames it receives, `heard`: it is given up on exactly when none is an answer.
     */
    method ExchangeInner(c: Op) returns (r: Result<Frame, BackingError>, ghost copies: nat, ghost heard: seq<Frame>)
      requires Valid() && Link().phase.Idle?
      modifies this, mux, t, t.host, t.host.mux
      ensures Valid() && (mux == old(mux) || fresh(mux))
      ensures r.Ok? ==> !Link().phase.Dead? && TypeByte(r.value) == Want(c) && r.value.page == c.page
      ensures !Link().phase.Dead? ==> Link().phase.Idle? && Link().log == old(Link()).log + [Done(c, OutcomeOf(r))]
      ensures Link().phase.Dead? ==> r == Error(MediumFailed) && Link().log == old(Link()).log && fault.Some?
      ensures copies == Sends(t.run) - Sends(old(t.run)) <= RETRY_BUDGET + 1
      ensures retries - old(retries) <= copies <= retries - old(retries) + 1
      ensures !Link().phase.Dead? ==> copies == retries - old(retries) + 1
      ensures Paced(old(t.calls), t.calls)
      ensures Link().phase.Dead? ==> Cause(t.calls, |old(t.calls)|, copies, fault.value)
      ensures t.got == old(t.got) + heard && console == old(console) + ConsoleBytes(heard)
      ensures Link().phase.Dead? <==> AnswerIn(c, heard) == None
      ensures !Link().phase.Dead? ==> r == Returned(AnswerIn(c, heard).value) && Purged(mux.held) == Purged(old(mux.held) + PageFrames(heard))
      ensures Link().phase.Dead? ==> lateDropped - old(lateDropped) == |OfType(heard, Want(c))|
      ensures Link().phase.Dead? ==> (fault.value.Timeout? ==> OfType(heard, Want(c)) == [])
      ensures Link().phase.Dead? ==>
                (fault.value.WrongPage? ==> OfType(heard, Want(c)) != [] && fault.value == WrongPage(c.page, LastPage(OfType(heard, Want(c)), U32_MAX)))
    {
      hide AnswerIn, Purged, PageFrames, ConsoleBytes, Paced, Cause, Legal, After, Sends, Ticking, Copies;
      ghost var past := t.calls;
      var began := Open(c);
      var v, mismatched, last;
      v, mismatched, last, heard := Attempts(c, began, past);
      copies := Sends(t.run) - Sends(old(t.run));
      OutcomeOfVerdict(c, v);
      match v {
        case Answer(g) => r := Ok(g);
        case Refusal(code) => r := Error(ErrCode(code));
        case GiveUp(why) =>
          GiveUpOn(c, why, mismatched, last, past, copies);
          r := Error(MediumFailed);
      }
    }

    /** What the exchange of `c` returned, on a link whose operations so far are guarded with it. */
    ghost predicate PlainMemory(log: seq<Done>, c: Op, outcome: Outcome)
      reads t
    {
      Guarded(false, |t.init|, Ops(log) + [c]) ==> outcome == Expected(Memory(t.init, Ops(log)), c)
    }

    lemma {:induction false} LastIsPlain(log: seq<Done>, d: Done)
      requires t.Recorded() && Link().log == log + [d]
      ensures Ops(Link().log) == Ops(log) + [d.op]
      ensures PlainMemory(log, d.op, d.outcome)
    {
      var all := Link().log;
      assert Ops(all) == Ops(log) + [d.op];
      if Guarded(false, |t.init|, Ops(all)) {
        RunsAreCoherent(false, t.init, t.run);
        assert all[|log|] == d && all[..|log|] == log;
      }
    }

    method ReadPage(page: nat) returns (r: Result<Page, BackingError>, ghost heard: seq<Frame>)
      requires Valid() && Link().phase.Idle?
      modifies this, mux, t, t.host, t.host.mux
      ensures Valid()
      ensures !Link().phase.Dead? ==> Link().phase.Idle? && Ops(Link().log) == Ops(old(Link()).log) + [Read(page)]
      ensures !Link().phase.Dead? ==>
                PlainMemory(old(Link()).log, Read(page), match r case Ok(d) => Fetched(d) case Error(e) => if e.BeyondStore? then OutOfRange else Medium)
      ensures Link().phase.Dead? ==> r == Error(MediumFailed) && Link().log == old(Link()).log
      ensures t.got == old(t.got) + heard && console == old(console) + ConsoleBytes(heard)
      ensures Link().phase.Dead? <==> AnswerIn(Read(page), heard) == None
    {
      ghost var log := Link().log;
      var f;
      ghost var copies;
      f, copies, heard := ExchangeInner(Read(page));
      if !Link().phase.Dead? {
        LastIsPlain(log, Done(Read(page), OutcomeOf(f)));
      }
      match f {
        case Ok(g) => r := Ok(g.data);
        case Error(e) => r := Error(e);
      }
    }

    method WritePage(page: nat, data: Page) returns (r: Result<(), BackingError>, ghost heard: seq<Frame>)
      requires Valid() && Link().phase.Idle?
      modifies this, mux, t, t.host, t.host.mux
      ensures Valid()
      ensures !Link().phase.Dead? ==> Link().phase.Idle? && Ops(Link().log) == Ops(old(Link()).log) + [Write(page, data)]
      ensures !Link().phase.Dead? ==>
                PlainMemory(old(Link()).log, Write(page, data), match r case Ok(d) => Written case Error(e) => if e.BeyondStore? then OutOfRange else Medium)
      ensures Link().phase.Dead? ==> r == Error(MediumFailed) && Link().log == old(Link()).log
      ensures t.got == old(t.got) + heard && console == old(console) + ConsoleBytes(heard)
      ensures Link().phase.Dead? <==> AnswerIn(Write(page, data), heard) == None
    {
      ghost var log := Link().log;
      var f;
      ghost var copies;
      f, copies, heard := ExchangeInner(Write(page, data));
      if !Link().phase.Dead? {
        LastIsPlain(log, Done(Write(page, data), OutcomeOf(f)));
      }
      match f {
        case Ok(_) => r := Ok(());
        case Error(e) => r := Error(e);
      }
    }

    /** Between exchanges: decodes whatever has already arrived. */
    method Pump() returns (ok: bool, ghost frames: seq<Frame>)
      requires Valid() && Link().phase.Idle?
      modifies this`deliveries, this`bytesIn, this`console, this`fault
      modifies mux, t, t.host, t.host.mux
      ensures Valid() && Link().phase.Idle? && Link().log == old(Link()).log && Sends(t.run) == Sends(old(t.run))
      ensures fault == (if ok then old(fault) else Some(RecvFailed)) && t.calls == old(t.calls) + [Received(ok)]
      ensures t.got == old(t.got) + frames && mux.held == old(mux.held) + PageFrames(frames)
      ensures console == old(console) + ConsoleBytes(frames) && (!ok ==> frames == [])
    {
      var d := t.Poll();
      frames := FramesOf(d);
      if d.None? {
        fault := Some(RecvFailed);
        return false, frames;
      }
      TakeIn(d.value);
      return true, frames;
    }

    /** Mirrors guest console output: nothing is sent for none, and a failure costs only those bytes. */
    method SendConsole(bytes: seq<bv8>) returns (ok: bool)
      requires Valid() && Link().phase.Idle?
      modifies this`fault, t, t.host, t.host.mux
      ensures Valid() && Link().phase.Idle? && Link().log == old(Link()).log && Link().held == old(Link()).held
      ensures Sends(t.run) == Sends(old(t.run))
      ensures t.got == old(t.got)
      ensures bytes == [] ==> ok && t.run == old(t.run) && t.calls == old(t.calls)
      ensures bytes != [] ==> exists r :: t.calls == old(t.calls) + [Mirrored(r)] && ok == r.Sent? && (!ok ==> fault == FaultOf(r))
      ensures ok ==> fault == old(fault)
    {
      if bytes == [] {
        return true;
      }
      var r := t.SendConsoleFrame(bytes);
      if !r.Sent? {
        fault := FaultOf(r);
      }
      return r.Sent?;
    }

    method TakeConsole() returns (bytes: seq<bv8>)
      modifies this`console
      ensures bytes == old(console) && console == []
    {
      bytes := console;
      console := [];
    }
  }
}
