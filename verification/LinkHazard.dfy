/** The guard is exact: whenever it fails, some run of the same shape loses a write. */
module LinkHazard {
  import opened Wrappers
  import opened Frames
  import opened HostServe
  import opened LinkModel
  import opened LinkCoherence

  ghost predicate Reach(inOrder: bool, s: Link, t: Link) {
    exists es :: Legal(inOrder, s, es) && After(inOrder, s, es) == t
  }

  lemma {:induction false} ReachOne(inOrder: bool, s: Link, e: Event)
    requires Can(inOrder, s, e)
    ensures Reach(inOrder, s, Do(inOrder, s, e))
  {
    assert [] + [e] == [e];
    RunStep(inOrder, s, [], e);
  }

  lemma {:induction false} ReachTrans(inOrder: bool, s: Link, t: Link, u: Link)
    requires Reach(inOrder, s, t) && Reach(inOrder, t, u)
    ensures Reach(inOrder, s, u)
  {
    var a :| Legal(inOrder, s, a) && After(inOrder, s, a) == t;
    var b :| Legal(inOrder, t, b) && After(inOrder, t, b) == u;
    RunConcat(inOrder, s, a, b);
  }

  lemma {:induction false} ReachSelf(inOrder: bool, s: Link)
    ensures Reach(inOrder, s, s)
  {
    assert Legal(inOrder, s, []) && After(inOrder, s, []) == s;
  }

  /** One more event on the end. */
  lemma {:induction false} Then(inOrder: bool, s: Link, t: Link, e: Event)
    requires Reach(inOrder, s, t) && Can(inOrder, t, e)
    ensures Reach(inOrder, s, Do(inOrder, t, e))
  {
    ReachOne(inOrder, t, e);
    ReachTrans(inOrder, s, t, Do(inOrder, t, e));
  }

  /** The channels may lose everything. */
  lemma {:induction false} LoseAll(inOrder: bool, s: Link)
    ensures Reach(inOrder, s, s.(up := [], down := []))
    decreases |s.up| + |s.down|
  {
    ReachSelf(inOrder, s);
    if s.up != [] {
      var t := Do(inOrder, s, DropUp(0));
      ReachOne(inOrder, s, DropUp(0));
      LoseAll(inOrder, t);
      ReachTrans(inOrder, s, t, t.(up := [], down := []));
    } else if s.down != [] {
      var t := Do(inOrder, s, DropDown(0));
      ReachOne(inOrder, s, DropDown(0));
      LoseAll(inOrder, t);
      ReachTrans(inOrder, s, t, t.(up := [], down := []));
    }
  }

  /** An exchange opens and its request leaves. */
  lemma {:induction false} Send(inOrder: bool, s: Link, c: Op)
    requires s.phase.Idle?
    ensures Reach(inOrder, s, s.(up := s.up + [Request(c)], held := Purged(s.held), phase := Awaiting(c)))
  {
    ReachOne(inOrder, s, Begin(c));
    var t := Do(inOrder, s, Begin(c));
    Then(inOrder, s, t, Purge);
    var u := Do(inOrder, t, Purge);
    Then(inOrder, s, u, Transmit);
  }

  lemma {:induction false} OfTypeOne(f: Frame, ty: nat)
    ensures OfType([f], ty) == if TypeByte(f) == ty then [f] else []
  {
    assert [f][1..] == [];
  }

  lemma {:induction false} ServeOne(f: Frame, pages: seq<Page>)
    requires IsRequest(f)
    ensures ServingOrder([f]) == [f]
    ensures Replies([f], pages) == [Answer(f, pages)] && PagesAfter([f], pages) == Stored(f, pages)
  {
    OfTypeOne(f, TY_READ_REQ);
    OfTypeOne(f, TY_WRITE_REQ);
    assert [f][1..] == [];
  }

  /** A write and a read behind it, completed by one read of the port. */
  lemma {:induction false} ServeTwo(w: Frame, f: Frame, pages: seq<Page>)
    requires w.WriteReq? && f.ReadReq?
    ensures ServingOrder([w, f]) == [f, w]
    ensures Replies([f, w], pages) == [Answer(f, pages), Answer(w, pages)] && PagesAfter([f, w], pages) == Stored(w, pages)
  {
    assert [w, f] == [w] + [f] && [f, w] == [f] + [w];
    OfTypeConcat([w], [f], TY_READ_REQ);
    OfTypeConcat([w], [f], TY_WRITE_REQ);
    OfTypeOne(f, TY_READ_REQ);
    OfTypeOne(f, TY_WRITE_REQ);
    OfTypeOne(w, TY_READ_REQ);
    OfTypeOne(w, TY_WRITE_REQ);
    RepliesConcat([f], [w], pages);
    ServeOne(f, pages);
    ServeOne(w, pages);
  }

  /** The host serves the oldest request on its own. */
  lemma {:induction false} ServeFirst(inOrder: bool, s: Link, f: Frame)
    requires s.up != [] && s.up[0] == f && IsRequest(f)
    ensures Reach(inOrder, s, s.(up := s.up[1..], down := s.down + [Answer(f, s.pages)], pages := Stored(f, s.pages)))
  {
    assert s.up[..1] == [f];
    ServeOne(f, s.pages);
    ReachOne(inOrder, s, HostServes(1));
  }

  /** A frame that ends the exchange of `c`. */
  ghost predicate Ends(c: Op, g: Frame) {
    IsResponse(g) && (TypeByte(g) == Want(c) || g.Err?) && FramePage(g) == Some(c.page)
  }

  /** The last held frame ends the exchange, and no other of a type it looks for is held. */
  lemma {:induction false} AcceptLast(inOrder: bool, u: Link, c: Op) returns (t: Link)
    requires u.phase == Awaiting(c) && u.held != [] && Ends(c, u.held[|u.held| - 1])
    requires forall i :: 0 <= i < |u.held| - 1 ==> TypeByte(u.held[i]) != Want(c) && TypeByte(u.held[i]) != TypeByte(u.held[|u.held| - 1])
    ensures Reach(inOrder, u, t)
    ensures t == u.(held := t.held, phase := Idle, log := u.log + [Done(c, ResultOf(u.held[|u.held| - 1]))])
  {
    var g := u.held[|u.held| - 1];
    FirstAt(u.held, TypeByte(g), |u.held| - 1);
    if TypeByte(g) == Want(c) {
      ReachOne(inOrder, u, Accept);
      t := Do(inOrder, u, Accept);
    } else {
      assert !Holds(u.held, Want(c));
      ReachOne(inOrder, u, AcceptErr);
      t := Do(inOrder, u, AcceptErr);
    }
  }

  /** Deliver the first `n` frames down, only the last of which can end the exchange, and accept it. */
  lemma {:induction false} Take(inOrder: bool, s: Link, c: Op, n: nat) returns (t: Link)
    requires s.phase == Awaiting(c) && 0 < n <= |s.down|
    requires forall g :: g in s.held ==> !IsResponse(g)
    requires forall i :: 0 <= i < n ==> !IsConsole(s.down[i])
    requires Ends(c, s.down[n - 1]) && forall i :: 0 <= i < n - 1 ==> TypeByte(s.down[i]) != Want(c) && TypeByte(s.down[i]) != TypeByte(s.down[n - 1])
    ensures Reach(inOrder, s, t)
    ensures t == s.(down := s.down[n..], held := t.held, phase := Idle, log := s.log + [Done(c, ResultOf(s.down[n - 1]))])
  {
    var batch := s.down[..n];
    ReachOne(inOrder, s, Absorb(n));
    PageFramesAll(batch);
    var u := s.(down := s.down[n..], held := s.held + batch);
    forall i | 0 <= i < |u.held| - 1 ensures TypeByte(u.held[i]) != Want(c) && TypeByte(u.held[i]) != TypeByte(s.down[n - 1]) {
      if i < |s.held| {
        assert u.held[i] in s.held;
      } else {
        assert u.held[i] == s.down[i - |s.held|];
      }
    }
    t := AcceptLast(inOrder, u, c);
    ReachTrans(inOrder, s, u, t);
  }

  lemma {:induction false} PageFramesAll(fs: seq<Frame>)
    requires forall i :: 0 <= i < |fs| ==> !IsConsole(fs[i])
    ensures PageFrames(fs) == fs
  {
    if fs != [] {
      PageFramesAll(fs[1..]);
    }
  }

  lemma {:induction false} FirstAt(fs: seq<Frame>, ty: nat, at: nat)
    requires at < |fs| && TypeByte(fs[at]) == ty && forall i :: 0 <= i < at ==> TypeByte(fs[i]) != ty
    ensures FirstIndex(fs, ty) == at
  {
  }

  /** Between exchanges, with the worst the residue allows still on its way. */
  ghost predicate Worst(r: Residue, mem: seq<Page>, s: Link) {
    && s.phase.Idle? && s.pages == mem
    && (match r
        case Stale(q, None) => q < |mem| && s.up == [WriteReq(q, mem[q])] && s.down == []
        case Stale(q, Some(p)) => q < |mem| && s.up == [] && s.down == [Answer(ReadReq(p), mem), WriteAck(q)]
        case _ => s.up == [] && s.down == [])
  }

  lemma {:induction false} SendAndServe(inOrder: bool, s: Link, c: Op) returns (t: Link)
    requires s.phase.Idle? && s.up == [] && s.down == []
    ensures Reach(inOrder, s, t)
    ensures t == s.(held := t.held, pages := Remember(s.pages, c), log := s.log + [Done(c, Expected(s.pages, c))])
  {
    Send(inOrder, s, c);
    var u := s.(up := [Request(c)], held := Purged(s.held), phase := Awaiting(c));
    PurgedMembers(s.held);
    ServeFirst(inOrder, u, Request(c));
    var v := u.(up := [], down := [Answer(Request(c), u.pages)], pages := Stored(Request(c), u.pages));
    ReachTrans(inOrder, s, u, v);
    t := Take(inOrder, v, c, 1);
    ReachTrans(inOrder, s, v, t);
  }

  /** A write sent once and repeated on the wire: one copy is served, the other is still on its way. */
  lemma {:induction false} WriteRepeated(inOrder: bool, s: Link, c: Op) returns (t: Link)
    requires s.phase.Idle? && s.up == [] && s.down == [] && !Quiet(|s.pages|, c)
    ensures Reach(inOrder, s, t)
    ensures t == s.(up := [Request(c)], held := t.held, pages := Remember(s.pages, c), log := s.log + [Done(c, Written)])
  {
    Send(inOrder, s, c);
    var u := s.(up := [Request(c)], held := Purged(s.held), phase := Awaiting(c));
    PurgedMembers(s.held);
    assert Twice(u.up, 0) == [Request(c), Request(c)];
    Then(inOrder, s, u, RepeatUp(0));
    var v := u.(up := [Request(c), Request(c)]);
    ServeFirst(inOrder, v, Request(c));
    var w := v.(up := [Request(c)], down := [WriteAck(c.page)], pages := Stored(Request(c), u.pages));
    assert v.up[1..] == [Request(c)];
    ReachTrans(inOrder, s, v, w);
    t := Take(inOrder, w, c, 1);
    ReachTrans(inOrder, s, w, t);
  }

  /** A copy of the last write and a read, completed by one read of the port: the read is answered first. */
  lemma {:induction false} ReadOvertakesWrite(s: Link, q: nat, c: Op) returns (t: Link)
    requires c.Read? && Worst(Stale(q, None), s.pages, s)
    ensures Reach(false, s, t) && Worst(Stale(q, Some(c.page)), s.pages, t)
    ensures t.log == s.log + [Done(c, Expected(s.pages, c))]
  {
    Send(false, s, c);
    var w, f, a := WriteReq(q, s.pages[q]), Request(c), Answer(Request(c), s.pages);
    var u := s.(up := [w, f], held := Purged(s.held), phase := Awaiting(c));
    PurgedMembers(s.held);
    assert u.up[..2] == [w, f];
    ServeTwo(w, f, s.pages);
    Then(false, s, u, HostServes(2));
    var v := u.(up := [], down := [a, WriteAck(q)]);
    assert Do(false, u, HostServes(2)) == v;
    t := AcceptRepeated(false, v, q, c);
    ReachTrans(false, s, v, t);
  }

  /** The same answer again, without waiting for the request just sent. */
  lemma {:induction false} AcceptRepeated(inOrder: bool, v: Link, q: nat, c: Op) returns (t: Link)
    requires v.phase == Awaiting(c) && Quiet(|v.pages|, c) && q < |v.pages| && v.up == []
    requires forall g :: g in v.held ==> !IsResponse(g)
    requires v.down == [Answer(ReadReq(c.page), v.pages), WriteAck(q)]
    ensures Reach(inOrder, v, t) && Worst(Stale(q, Some(c.page)), v.pages, t)
    ensures t.log == v.log + [Done(c, Expected(v.pages, c))]
  {
    var a := v.down[0];
    assert Twice(v.down, 0) == [a, a, WriteAck(q)];
    ReachOne(inOrder, v, RepeatDown(0));
    var w := v.(down := [a, a, WriteAck(q)]);
    t := Take(inOrder, w, c, 1);
    assert w.down[1..] == v.down;
    ReachTrans(inOrder, v, w, t);
  }

  lemma {:induction false} AskAgain(inOrder: bool, s: Link, q: nat, c: Op) returns (t: Link)
    requires Quiet(|s.pages|, c) && Worst(Stale(q, Some(c.page)), s.pages, s)
    ensures Reach(inOrder, s, t) && Worst(Stale(q, Some(c.page)), s.pages, t)
    ensures t.log == s.log + [Done(c, Expected(s.pages, c))]
  {
    Send(inOrder, s, c);
    var u := s.(up := [Request(c)], held := Purged(s.held), phase := Awaiting(c));
    PurgedMembers(s.held);
    Then(inOrder, s, u, DropUp(0));
    var v := u.(up := []);
    t := AcceptRepeated(inOrder, v, q, c);
    ReachTrans(inOrder, s, v, t);
  }

  /** Any guarded operation can complete leaving the worst its residue allows. */
  lemma {:induction false} WorstStep(inOrder: bool, r: Residue, mem: seq<Page>, s: Link, c: Op) returns (t: Link)
    requires Worst(r, mem, s) && !Hazard(|mem|, r, c)
    ensures Reach(inOrder, s, t) && Worst(Track(inOrder, |mem|, r, c), Remember(mem, c), t)
    ensures t.log == s.log + [Done(c, Expected(mem, c))]
  {
    var r2 := Track(inOrder, |mem|, r, c);
    if r.Stale? && r.seen.None? && r2.Stale? && Quiet(|mem|, c) {
      t := ReadOvertakesWrite(s, r.page, c);
    } else if r.Stale? && r2 == r && Quiet(|mem|, c) {
      t := AskAgain(inOrder, s, r.page, c);
    } else {
      LoseAll(inOrder, s);
      var u := s.(up := [], down := []);
      if Quiet(|mem|, c) {
        t := SendAndServe(inOrder, u, c);
      } else {
        t := WriteRepeated(inOrder, u, c);
      }
      ReachTrans(inOrder, s, u, t);
    }
  }

  /** Every guarded sequence of operations has a run that completes it. */
  lemma {:induction false} WorstRun(inOrder: bool, init: seq<Page>, ops: seq<Op>) returns (t: Link)
    requires Guarded(inOrder, |init|, ops)
    ensures Reach(inOrder, Start(init), t) && Ops(t.log) == ops && Coherent(init, t.log)
    ensures Worst(Tracked(inOrder, |init|, ops), Memory(init, ops), t)
    decreases |ops|
  {
    t := Start(init);
    ReachSelf(inOrder, t);
    if ops != [] {
      var before, c := ops[..|ops| - 1], ops[|ops| - 1];
      assert ops == before + [c];
      GuardedStep(inOrder, |init|, before, c);
      var u := WorstRun(inOrder, init, before);
      t := OneMoreOp(inOrder, init, before, c, u);
    }
  }

  lemma {:induction false} OneMoreOp(inOrder: bool, init: seq<Page>, before: seq<Op>, c: Op, u: Link) returns (t: Link)
    requires Reach(inOrder, Start(init), u) && Ops(u.log) == before && Coherent(init, u.log)
    requires Worst(Tracked(inOrder, |init|, before), Memory(init, before), u) && !Hazard(|init|, Tracked(inOrder, |init|, before), c)
    ensures Reach(inOrder, Start(init), t) && Ops(t.log) == before + [c] && Coherent(init, t.log)
    ensures Worst(Tracked(inOrder, |init|, before + [c]), Memory(init, before + [c]), t)
  {
    t := WorstStep(inOrder, Tracked(inOrder, |init|, before), Memory(init, before), u, c);
    ReachTrans(inOrder, Start(init), u, t);
    CoherentStep(init, u.log, Done(c, Expected(Memory(init, before), c)));
    TrackedStep(inOrder, |init|, before, c);
    MemoryStep(init, before, c);
    OpsStep(u.log, Done(c, Expected(Memory(init, before), c)));
  }

  lemma {:induction false} OpsStep(log: seq<Done>, d: Done)
    ensures Ops(log + [d]) == Ops(log) + [d.op]
  {
  }

  /** The copy of the earlier write is served while the new one waits, and its acknowledgement is taken. */
  lemma {:induction false} StaleServed(inOrder: bool, s: Link, q: nat, c: Op) returns (t: Link)
    requires Worst(Stale(q, None), s.pages, s) && c.Write? && c.page == q
    ensures Reach(inOrder, s, t)
    ensures t.phase.Idle? && t.pages == s.pages && t.log == s.log + [Done(c, Written)]
  {
    var w, f := WriteReq(q, s.pages[q]), Request(c);
    Send(inOrder, s, c);
    PurgedMembers(s.held);
    var u := s.(up := s.up + [f], held := Purged(s.held), phase := Awaiting(c));
    assert u.up == [w, f] && u.up[1..] == [f];
    ServeFirst(inOrder, u, w);
    var v := u.(up := [f], down := [WriteAck(q)], pages := s.pages);
    ReachTrans(inOrder, s, u, v);
    t := Take(inOrder, v, c, 1);
    ReachTrans(inOrder, s, v, t);
  }

  /** The acknowledgement is on its way already, behind an answer that does not concern the write. */
  lemma {:induction false} StaleDelivered(inOrder: bool, s: Link, q: nat, p: nat, c: Op) returns (t: Link)
    requires Worst(Stale(q, Some(p)), s.pages, s) && c.Write? && c.page == q
    ensures Reach(inOrder, s, t)
    ensures t.phase.Idle? && t.pages == s.pages && t.log == s.log + [Done(c, Written)]
  {
    Send(inOrder, s, c);
    PurgedMembers(s.held);
    var u := s.(up := s.up + [Request(c)], held := Purged(s.held), phase := Awaiting(c));
    t := Take(inOrder, u, c, 2);
    ReachTrans(inOrder, s, u, t);
  }

  /** A stale acknowledgement ends a write the host never sees: memory keeps the old page. */
  lemma {:induction false} StaleAckAccepted(inOrder: bool, r: Residue, mem: seq<Page>, s: Link, c: Op) returns (t: Link)
    requires Worst(r, mem, s) && Hazard(|mem|, r, c)
    ensures Reach(inOrder, s, t)
    ensures t.phase.Idle? && t.pages == mem && t.up == [] && t.down == []
    ensures t.log == s.log + [Done(c, Written)]
  {
    var u;
    if r.seen.None? {
      u := StaleServed(inOrder, s, r.page, c);
    } else {
      u := StaleDelivered(inOrder, s, r.page, r.seen.value, c);
    }
    LoseAll(inOrder, u);
    t := u.(up := [], down := []);
    ReachTrans(inOrder, s, u, t);
  }

  // ---- the exact condition ----

  predicate SameKind(a: Op, b: Op) {
    a.Read? == b.Read? && a.page == b.page
  }

  /** The same operations on the same pages, whatever the data written. */
  predicate SameShape(a: seq<Op>, b: seq<Op>) {
    |a| == |b| && forall i :: 0 <= i < |a| ==> SameKind(a[i], b[i])
  }

  /** Every run that completes these operations, or some first ones of them, is one of plain memory. */
  ghost predicate Safe(inOrder: bool, init: seq<Page>, ops: seq<Op>) {
    forall t :: Reach(inOrder, Start(init), t) && Ops(t.log) <= ops ==>
                  Coherent(init, t.log) && (t.phase.Idle? ==> t.pages == Memory(init, Ops(t.log)))
  }

  lemma {:induction false} ShapeTracked(inOrder: bool, size: nat, a: seq<Op>, b: seq<Op>)
    requires SameShape(a, b)
    ensures Tracked(inOrder, size, a) == Tracked(inOrder, size, b)
    decreases |a|
  {
    if a != [] {
      assert SameKind(a[|a| - 1], b[|b| - 1]);
      ShapeTracked(inOrder, size, a[..|a| - 1], b[..|b| - 1]);
    }
  }

  lemma {:induction false} ShapeGuarded(inOrder: bool, size: nat, a: seq<Op>, b: seq<Op>)
    requires SameShape(a, b) && Guarded(inOrder, size, a)
    ensures Guarded(inOrder, size, b)
  {
    forall k | 0 <= k < |b| ensures !Hazard(size, Tracked(inOrder, size, b[..k]), b[k]) {
      assert SameKind(a[k], b[k]);
      ShapeTracked(inOrder, size, a[..k], b[..k]);
    }
  }

  lemma {:induction false} GuardedPrefix(inOrder: bool, size: nat, ops: seq<Op>, first: seq<Op>)
    requires Guarded(inOrder, size, ops) && first <= ops
    ensures Guarded(inOrder, size, first)
  {
    assert forall k :: 0 <= k < |first| ==> first[..k] == ops[..k] && first[k] == ops[k];
  }

  lemma {:induction false} GuardedIsSafe(inOrder: bool, init: seq<Page>, ops: seq<Op>)
    requires Guarded(inOrder, |init|, ops)
    ensures Safe(inOrder, init, ops)
  {
    forall t | Reach(inOrder, Start(init), t) && Ops(t.log) <= ops
      ensures Coherent(init, t.log) && (t.phase.Idle? ==> t.pages == Memory(init, Ops(t.log)))
    {
      var es :| Legal(inOrder, Start(init), es) && After(inOrder, Start(init), es) == t;
      GuardedPrefix(inOrder, |init|, ops, Ops(t.log));
      RunsAreCoherent(inOrder, init, es);
    }
  }

  /** The first operation the guard rules out. */
  lemma {:induction false} FirstHazard(inOrder: bool, size: nat, ops: seq<Op>) returns (k: nat)
    requires !Guarded(inOrder, size, ops)
    ensures k < |ops| && Guarded(inOrder, size, ops[..k]) && Hazard(size, Tracked(inOrder, size, ops[..k]), ops[k])
    decreases |ops|
  {
    var before := ops[..|ops| - 1];
    assert ops == before + [ops[|ops| - 1]];
    GuardedStep(inOrder, size, before, ops[|ops| - 1]);
    if Guarded(inOrder, size, before) {
      k := |ops| - 1;
    } else {
      k := FirstHazard(inOrder, size, before);
      assert before[..k] == ops[..k];
    }
  }

  /** A page that differs from the given one. */
  function Other(p: Page): (q: Page)
    ensures q != p
  {
    var q := p[0 := p[0] ^ 1];
    assert q[0] != p[0];
    q
  }

  /** A run of some first operations that leaves a page other than plain memory would. */
  lemma {:induction false} LosingRun(inOrder: bool, init: seq<Page>, before: seq<Op>) returns (c: Op, t: Link)
    requires Guarded(inOrder, |init|, before) && Tracked(inOrder, |init|, before).Stale?
    ensures c.Write? && c.page == Tracked(inOrder, |init|, before).page
    ensures Reach(inOrder, Start(init), t) && Ops(t.log) == before + [c] && t.phase.Idle?
    ensures t.pages != Memory(init, before + [c])
  {
    var r, mem := Tracked(inOrder, |init|, before), Memory(init, before);
    TrackedShape(inOrder, |init|, before);
    c := Write(r.page, Other(mem[r.page]));
    var s := WorstRun(inOrder, init, before);
    t := StaleAckAccepted(inOrder, r, mem, s, c);
    ReachTrans(inOrder, Start(init), s, t);
    OpsStep(s.log, Done(c, Written));
    MemoryStep(init, before, c);
    assert Memory(init, before + [c])[r.page] != t.pages[r.page];
  }

  lemma {:induction false} UnguardedIsUnsafe(inOrder: bool, init: seq<Page>, ops: seq<Op>) returns (bad: seq<Op>)
    requires !Guarded(inOrder, |init|, ops)
    ensures SameShape(ops, bad) && !Safe(inOrder, init, bad)
  {
    var k := FirstHazard(inOrder, |init|, ops);
    var c, t := LosingRun(inOrder, init, ops[..k]);
    bad := ops[k := c];
    assert Ops(t.log) <= bad;
  }

  /**
   The guard is exact. A sequence of reads and writes keeps memory in every run, whatever data
   is written, if and only if none of its writes can be met by a stale acknowledgement.
   */
  lemma {:induction false} GuardIsExact(inOrder: bool, init: seq<Page>, ops: seq<Op>)
    ensures Guarded(inOrder, |init|, ops) <==> forall same :: SameShape(ops, same) ==> Safe(inOrder, init, same)
  {
    if Guarded(inOrder, |init|, ops) {
      forall same | SameShape(ops, same) ensures Safe(inOrder, init, same) {
        ShapeGuarded(inOrder, |init|, ops, same);
        GuardedIsSafe(inOrder, init, same);
      }
    } else {
      var bad := UnguardedIsUnsafe(inOrder, init, ops);
    }
  }

  /** What plain memory would have answered the last read of `LostWrite`. */
  lemma {:induction false} RewrittenMemory(first: Page, second: Page, log: seq<Done>)
    requires |log| == 4 && Ops(log[..3]) == [Write(0, first), Read(0), Write(0, second)]
    requires log[3] == Done(Read(0), Fetched(first)) && first != second
    ensures !Coherent([first], log)
  {
    var ops := Ops(log[..3]);
    assert ops == [Write(0, first), Read(0)] + [Write(0, second)];
    MemoryStep([first], [Write(0, first), Read(0)], Write(0, second));
    assert Expected(Memory([first], ops), Read(0)) == Fetched(second);
  }

  /**
   The argument that re-sending is safe fails on the host as it is: no two consecutive exchanges
   write the same page, every one of them succeeds, and the last read returns overwritten data.
   */
  lemma {:induction false} LostWrite(first: Page, second: Page) returns (t: Link)
    requires first != second
    ensures Reach(false, Start([first]), t)
    ensures t.log == [Done(Write(0, first), Written), Done(Read(0), Fetched(first)),
                      Done(Write(0, second), Written), Done(Read(0), Fetched(first))]
    ensures !Coherent([first], t.log)
  {
    var s, w, rd, w2 := Start([first]), Write(0, first), Read(0), Write(0, second);
    assert Worst(Clear, [first], s);
    assert Remember([first], w) == [first];
    var a := WorstStep(false, Clear, [first], s, w);
    var b := WorstStep(false, Stale(0, None), [first], a, rd);
    ReachTrans(false, s, a, b);
    var c := StaleAckAccepted(false, Stale(0, Some(0)), [first], b, w2);
    ReachTrans(false, s, b, c);
    t := SendAndServe(false, c, rd);
    ReachTrans(false, s, c, t);
    FourInARow(s.log, Done(w, Written), Done(rd, Fetched(first)), Done(w2, Written), Done(rd, Fetched(first)));
    RewrittenMemory(first, second, t.log);
  }

  lemma {:induction false} FourInARow(log: seq<Done>, a: Done, b: Done, c: Done, d: Done)
    requires log == []
    ensures log + [a] + [b] + [c] + [d] == [a, b, c, d]
    ensures Ops([a, b, c, d][..3]) == [a.op, b.op, c.op]
  {
  }
}
