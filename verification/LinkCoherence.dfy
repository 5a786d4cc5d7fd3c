/** The link behaves as plain memory over every run whose operations are guarded. */
module LinkCoherence {
  import opened Wrappers
  import opened Frames
  import opened HostServe
  import opened LinkModel

  // ---- what may be in flight when no exchange is open ----

  ghost predicate QuietReq(size: nat, f: Frame) {
    f.ReadReq? || (f.WriteReq? && f.page >= size)
  }

  ghost predicate OldReq(r: Residue, mem: seq<Page>, f: Frame) {
    || f.ConOut?
    || (r.Stale? && r.seen.None? && r.page < |mem| && f == WriteReq(r.page, mem[r.page]))
    || (QuietReq(|mem|, f) && About(r, f.page))
  }

  ghost predicate OldRep(r: Residue, mem: seq<Page>, g: Frame) {
    match g
    case ConIn(_) => true
    case Err(code, p) => (code == ERR_READ || code == ERR_WRITE) && p >= |mem| && About(r, p)
    case ReadResp(p, x) => p < |mem| && x == mem[p] && About(r, p)
    case WriteAck(q) => q < |mem| && r.Stale? && r.page == q
    case _ => false
  }

  /** An answer to the open operation. */
  ghost predicate FreshRep(size: nat, c: Op, g: Frame) {
    if c.page >= size then g.Err? && g.page == c.page
    else if c.Read? then g.ReadResp? && g.page == c.page
    else g.WriteAck? && g.page == c.page
  }

  ghost predicate GoodFresh(mem: seq<Page>, c: Op, g: Frame) {
    && FreshRep(|mem|, c, g)
    && (g.ReadResp? ==> g.data == mem[c.page])
    && (g.Err? ==> g.code == ERR_READ || g.code == ERR_WRITE)
  }

  /** The open operation asks for nothing an earlier, still unanswered one did not. */
  ghost predicate Blends(size: nat, r: Residue, c: Op) {
    Quiet(size, c) && About(r, c.page)
  }

  /** The held frames that matter: before a send they are purged, after the end they will be. */
  ghost function Live(s: Link): seq<Frame> {
    if s.phase.Awaiting? then s.held else []
  }

  ghost predicate Settled(r: Residue, mem: seq<Page>, s: Link) {
    && s.pages == mem
    && (forall f :: f in s.up ==> OldReq(r, mem, f))
    && (forall g :: g in s.down ==> OldRep(r, mem, g))
    && (forall g :: g in Live(s) && IsResponse(g) ==> OldRep(r, mem, g))
  }

  /** The context of an open exchange: what may be old, and what completing it leaves. */
  datatype Context = Context(r: Residue, mem: seq<Page>, c: Op, r2: Residue, mem2: seq<Page>)

  ghost predicate Proper(inOrder: bool, x: Context) {
    && (x.r.Stale? ==> x.r.page < |x.mem|)
    && (inOrder && x.r.Stale? ==> x.r.seen.None?)
    && x.r2 == Track(inOrder, |x.mem|, x.r, x.c)
    && x.mem2 == Remember(x.mem, x.c)
    && !Hazard(|x.mem|, x.r, x.c)
    && !Blends(|x.mem|, x.r, x.c)
  }

  ghost predicate SeenFresh(x: Context, s: Link) {
    exists g :: (g in s.down || g in Live(s)) && FreshRep(|x.mem|, x.c, g)
  }

  ghost predicate OnlyFresh(x: Context, s: Link) {
    forall f :: f in s.up ==> f.ConOut? || f == Request(x.c)
  }

  ghost predicate FreshLast(x: Context, up: seq<Frame>) {
    forall i, j :: 0 <= i < j < |up| && up[i] == Request(x.c) ==> up[j].ConOut? || up[j] == Request(x.c)
  }

  ghost predicate RepliesOrdered(x: Context, down: seq<Frame>) {
    forall i, j :: 0 <= i < j < |down| && FreshRep(|x.mem|, x.c, down[i]) ==> OldRep(x.r2, x.mem2, down[j])
  }

  ghost predicate Known(x: Context, g: Frame) {
    OldRep(x.r, x.mem, g) || GoodFresh(x.mem, x.c, g)
  }

  ghost predicate InExchange(x: Context, s: Link) {
    && (forall f :: f in s.up ==> OldReq(x.r, x.mem, f) || f == Request(x.c))
    && FreshLast(x, s.up)
    && (forall g :: g in s.down ==> Known(x, g))
    && (forall g :: g in Live(s) && IsResponse(g) ==> Known(x, g))
    && RepliesOrdered(x, s.down)
    && ((exists g :: g in Live(s) && FreshRep(|x.mem|, x.c, g)) ==> forall g :: g in s.down ==> OldRep(x.r2, x.mem2, g))
    && (SeenFresh(x, s) ==> OnlyFresh(x, s) && s.pages == x.mem2)
    && (s.pages == x.mem || (s.pages == x.mem2 && OnlyFresh(x, s)))
  }

  // ---- one request, one answer ----

  lemma {:induction false} AnswerOld(r: Residue, mem: seq<Page>, f: Frame)
    requires OldReq(r, mem, f) && IsRequest(f)
    ensures OldRep(r, mem, Answer(f, mem)) && Stored(f, mem) == mem
  {
  }

  lemma {:induction false} RepliesOld(r: Residue, mem: seq<Page>, fs: Requests)
    requires forall f :: f in fs ==> OldReq(r, mem, f)
    ensures forall g :: g in Replies(fs, mem) ==> OldRep(r, mem, g)
    ensures PagesAfter(fs, mem) == mem
  {
    if fs != [] {
      AnswerOld(r, mem, fs[0]);
      RepliesOld(r, mem, fs[1..]);
    }
  }

  /** Nothing old looks like the open operation or its answer; both are old once it completes. */
  lemma {:induction false} FreshIsNew(inOrder: bool, x: Context)
    requires Proper(inOrder, x)
    ensures !OldReq(x.r, x.mem, Request(x.c))
    ensures forall g :: OldRep(x.r, x.mem, g) ==> !FreshRep(|x.mem|, x.c, g)
    ensures OldReq(x.r2, x.mem2, Request(x.c))
    ensures forall g :: GoodFresh(x.mem, x.c, g) ==> OldRep(x.r2, x.mem2, g)
  {
  }

  lemma {:induction false} AnswerFresh(x: Context, pages: seq<Page>)
    requires x.mem2 == Remember(x.mem, x.c)
    requires pages == x.mem || pages == x.mem2
    ensures GoodFresh(x.mem, x.c, Answer(Request(x.c), pages))
    ensures Stored(Request(x.c), pages) == x.mem2
  {
  }

  /** An old write a later read of the port can still be served behind. */
  ghost predicate Follows(x: Context, f: Frame) {
    f == Request(x.c) || (x.c.Read? && f.WriteReq? && OldReq(x.r, x.mem, f))
  }

  lemma {:induction false} AnswerFollows(inOrder: bool, x: Context, f: Frame)
    requires Proper(inOrder, x) && !inOrder && Follows(x, f) && f != Request(x.c)
    ensures OldRep(x.r2, x.mem2, Answer(f, x.mem))
  {
  }

  lemma {:induction false} RepliesFresh(x: Context, fs: Requests, pages: seq<Page>)
    requires x.mem2 == Remember(x.mem, x.c)
    requires pages == x.mem || pages == x.mem2
    requires forall i :: 0 <= i < |fs| ==> fs[i] == Request(x.c)
    ensures forall g :: g in Replies(fs, pages) ==> GoodFresh(x.mem, x.c, g)
    ensures PagesAfter(fs, pages) == if fs == [] then pages else x.mem2
  {
    if fs != [] {
      AnswerFresh(x, pages);
      RepliesFresh(x, fs[1..], x.mem2);
    }
  }

  ghost predicate BatchOk(inOrder: bool, x: Context, fs: Requests) {
    && (forall f :: f in fs ==> OldReq(x.r, x.mem, f) || f == Request(x.c))
    && (forall i, j :: 0 <= i < j < |fs| && fs[i] == Request(x.c) ==> Follows(x, fs[j]))
    && (inOrder ==> |fs| <= 1)
  }

  ghost predicate AllLater(x: Context, fs: Requests) {
    forall f :: f in fs ==> Follows(x, f)
  }

  /** After a fresh answer, one call sends nothing that completing the exchange cannot leave behind. */
  lemma {:induction false} RepliesAfterFresh(inOrder: bool, x: Context, fs: Requests, pages: seq<Page>)
    requires Proper(inOrder, x) && !inOrder
    requires AllLater(x, fs)
    requires pages == x.mem2
    ensures forall g :: g in Replies(fs, pages) ==> Known(x, g) && OldRep(x.r2, x.mem2, g)
    ensures PagesAfter(fs, pages) == x.mem2
  {
    if fs != [] {
      FreshIsNew(inOrder, x);
      if fs[0] == Request(x.c) {
        AnswerFresh(x, pages);
      } else {
        assert Follows(x, fs[0]);
        AnswerFollows(inOrder, x, fs[0]);
        AnswerOld(x.r, x.mem, fs[0]);
      }
      RepliesAfterFresh(inOrder, x, fs[1..], x.mem2);
    }
  }

  /** What serving a batch that mixes old requests with the open one may send and leave. */
  ghost predicate MixedOk(x: Context, fs: Requests) {
    && (forall g :: g in Replies(fs, x.mem) ==> Known(x, g))
    && RepliesOrdered(x, Replies(fs, x.mem))
    && (Request(x.c) in fs ==> PagesAfter(fs, x.mem) == x.mem2)
    && (Request(x.c) !in fs ==> PagesAfter(fs, x.mem) == x.mem && forall g :: g in Replies(fs, x.mem) ==> OldRep(x.r, x.mem, g))
  }

  lemma {:induction false} OrderedFront(x: Context, a: Frame, rs: seq<Frame>)
    requires RepliesOrdered(x, rs)
    requires FreshRep(|x.mem|, x.c, a) ==> forall g :: g in rs ==> OldRep(x.r2, x.mem2, g)
    ensures RepliesOrdered(x, [a] + rs)
  {
    var all := [a] + rs;
    forall i, j | 0 <= i < j < |all| && FreshRep(|x.mem|, x.c, all[i]) ensures OldRep(x.r2, x.mem2, all[j]) {
      assert all[j] == rs[j - 1] && all[j] in rs;
      if i > 0 {
        assert all[i] == rs[i - 1];
      }
    }
  }

  lemma {:induction false} LaterOrdered(x: Context, rs: seq<Frame>)
    requires forall g :: g in rs ==> OldRep(x.r2, x.mem2, g)
    ensures RepliesOrdered(x, rs)
  {
  }

  lemma {:induction false} FreshFirst(inOrder: bool, x: Context, fs: Requests)
    requires Proper(inOrder, x) && BatchOk(inOrder, x, fs) && fs != [] && fs[0] == Request(x.c)
    ensures MixedOk(x, fs)
  {
    var rest: Requests := fs[1..];
    assert fs == [fs[0]] + rest;
    AnswerFresh(x, x.mem);
    var a, rs := Answer(fs[0], x.mem), Replies(rest, x.mem2);
    if rest != [] {
      forall f | f in rest ensures Follows(x, f) {
        var j :| 0 <= j < |rest| && rest[j] == f;
        assert fs[j + 1] == f;
      }
      RepliesAfterFresh(inOrder, x, rest, x.mem2);
    }
    LaterOrdered(x, rs);
    OrderedFront(x, a, rs);
    assert Replies(fs, x.mem) == [a] + rs;
  }

  lemma {:induction false} OldFirst(inOrder: bool, x: Context, fs: Requests)
    requires Proper(inOrder, x) && BatchOk(inOrder, x, fs) && fs != [] && fs[0] != Request(x.c)
    requires MixedOk(x, fs[1..])
    ensures MixedOk(x, fs)
  {
    FreshIsNew(inOrder, x);
    var rest: Requests := fs[1..];
    assert fs == [fs[0]] + rest;
    AnswerOld(x.r, x.mem, fs[0]);
    OrderedFront(x, Answer(fs[0], x.mem), Replies(rest, x.mem));
    assert Replies(fs, x.mem) == [Answer(fs[0], x.mem)] + Replies(rest, x.mem);
  }

  lemma {:induction false} BatchRest(inOrder: bool, x: Context, fs: Requests)
    requires BatchOk(inOrder, x, fs) && fs != []
    ensures BatchOk(inOrder, x, fs[1..])
  {
    var rest := fs[1..];
    forall i, j | 0 <= i < j < |rest| && rest[i] == Request(x.c) ensures Follows(x, rest[j]) {
      assert fs[i + 1] == rest[i] && fs[j + 1] == rest[j];
    }
  }

  lemma {:induction false} RepliesMixed(inOrder: bool, x: Context, fs: Requests)
    requires Proper(inOrder, x) && BatchOk(inOrder, x, fs)
    ensures MixedOk(x, fs)
  {
    if fs != [] {
      if fs[0] == Request(x.c) {
        FreshFirst(inOrder, x, fs);
      } else {
        BatchRest(inOrder, x, fs);
        RepliesMixed(inOrder, x, fs[1..]);
        OldFirst(inOrder, x, fs);
      }
    }
  }

  // ---- one call of the host over what the channel delivered ----

  lemma {:induction false} OfTypeFreshLast(x: Context, fs: seq<Frame>, ty: nat)
    requires ty != TY_CON_OUT && FreshLast(x, fs)
    ensures forall i, j :: 0 <= i < j < |OfType(fs, ty)| && OfType(fs, ty)[i] == Request(x.c) ==> OfType(fs, ty)[j] == Request(x.c)
  {
    if fs != [] {
      var rest, o := fs[1..], OfType(fs[1..], ty);
      assert FreshLast(x, rest) by {
        forall i, j | 0 <= i < j < |rest| && rest[i] == Request(x.c) ensures rest[j].ConOut? || rest[j] == Request(x.c) {
          assert fs[i + 1] == rest[i] && fs[j + 1] == rest[j];
        }
      }
      OfTypeFreshLast(x, rest, ty);
      OfTypeMembers(rest, ty);
      if TypeByte(fs[0]) == ty {
        assert OfType(fs, ty) == [fs[0]] + o;
        forall i, j | 0 <= i < j < |[fs[0]] + o| && ([fs[0]] + o)[i] == Request(x.c) ensures ([fs[0]] + o)[j] == Request(x.c) {
          if i == 0 {
            assert o[j - 1] in rest;
            var k :| 0 <= k < |rest| && rest[k] == o[j - 1];
            assert fs[k + 1] == o[j - 1];
          } else {
            assert ([fs[0]] + o)[i] == o[i - 1] && ([fs[0]] + o)[j] == o[j - 1];
          }
        }
      } else {
        assert OfType(fs, ty) == o;
      }
    }
  }

  lemma {:induction false} ServingOrderMembers(fs: seq<Frame>)
    ensures forall f :: f in ServingOrder(fs) <==> f in fs && IsRequest(f)
  {
    OfTypeMembers(fs, TY_READ_REQ);
    OfTypeMembers(fs, TY_WRITE_REQ);
  }

  lemma {:induction false} ServingOrderOk(inOrder: bool, x: Context, fs: seq<Frame>)
    requires FreshLast(x, fs) && (inOrder ==> |fs| <= 1)
    requires forall f :: f in fs ==> OldReq(x.r, x.mem, f) || f == Request(x.c)
    ensures BatchOk(inOrder, x, ServingOrder(fs))
  {
    ServingOrderMembers(fs);
    if |fs| <= 1 {
      if |fs| == 1 {
        assert fs[1..] == [];
        assert |OfType(fs, TY_READ_REQ)| + |OfType(fs, TY_WRITE_REQ)| <= 1;
      }
    } else {
      var rs, ws := OfType(fs, TY_READ_REQ), OfType(fs, TY_WRITE_REQ);
      OfTypeFreshLast(x, fs, TY_READ_REQ);
      OfTypeFreshLast(x, fs, TY_WRITE_REQ);
      OfTypeMembers(fs, TY_READ_REQ);
      OfTypeMembers(fs, TY_WRITE_REQ);
      forall i, j | 0 <= i < j < |rs + ws| && (rs + ws)[i] == Request(x.c) ensures Follows(x, (rs + ws)[j]) {
        if i < |rs| && |rs| <= j {
          assert rs[i] in rs && ws[j - |rs|] in ws;
        }
      }
    }
  }

  /** What a call of the host may add to an open exchange, and leave in memory. */
  ghost predicate ServedOk(x: Context, s: Link, batch: seq<Frame>, rs: seq<Frame>, pages: seq<Page>) {
    && (forall g :: g in rs ==> Known(x, g))
    && RepliesOrdered(x, rs)
    && (OnlyFresh(x, s) ==> forall g :: g in rs ==> OldRep(x.r2, x.mem2, g))
    && ((exists g :: g in rs && FreshRep(|x.mem|, x.c, g)) ==> Request(x.c) in batch)
    && pages == if Request(x.c) in batch then x.mem2 else s.pages
  }

  lemma {:induction false} ServeOnlyFresh(inOrder: bool, x: Context, s: Link, batch: seq<Frame>)
    requires Proper(inOrder, x) && OnlyFresh(x, s) && (s.pages == x.mem || s.pages == x.mem2)
    requires forall f :: f in batch ==> f in s.up
    ensures ServedOk(x, s, batch, Replies(ServingOrder(batch), s.pages), PagesAfter(ServingOrder(batch), s.pages))
  {
    var fs := ServingOrder(batch);
    ServingOrderMembers(batch);
    FreshIsNew(inOrder, x);
    forall i | 0 <= i < |fs| ensures fs[i] == Request(x.c) && Request(x.c) in batch {
      assert fs[i] in batch && fs[i] in s.up;
    }
    assert fs != [] ==> fs[0] == Request(x.c);
    RepliesFresh(x, fs, s.pages);
    var rs := Replies(fs, s.pages);
    assert forall j :: 0 <= j < |rs| ==> rs[j] in rs;
    assert Request(x.c) in batch ==> Request(x.c) in fs;
  }

  lemma {:induction false} ServeMixed(inOrder: bool, x: Context, s: Link, batch: seq<Frame>)
    requires Proper(inOrder, x) && !OnlyFresh(x, s) && s.pages == x.mem
    requires FreshLast(x, batch) && (inOrder ==> |batch| <= 1)
    requires forall f :: f in batch ==> OldReq(x.r, x.mem, f) || f == Request(x.c)
    ensures ServedOk(x, s, batch, Replies(ServingOrder(batch), s.pages), PagesAfter(ServingOrder(batch), s.pages))
  {
    var fs := ServingOrder(batch);
    ServingOrderMembers(batch);
    FreshIsNew(inOrder, x);
    ServingOrderOk(inOrder, x, batch);
    RepliesMixed(inOrder, x, fs);
    assert Request(x.c) in fs <==> Request(x.c) in batch;
  }

  // ---- every event keeps the invariant ----

  lemma {:induction false} FreshLastCut(x: Context, s: seq<Frame>, t: seq<Frame>, at: seq<nat>)
    requires FreshLast(x, s) && |at| == |t|
    requires forall j :: 0 <= j < |t| ==> at[j] < |s| && t[j] == s[at[j]]
    requires forall i, j :: 0 <= i < j < |t| ==> at[i] <= at[j]
    ensures FreshLast(x, t)
  {
  }

  lemma {:induction false} OrderedCut(x: Context, s: seq<Frame>, t: seq<Frame>, at: seq<nat>)
    requires RepliesOrdered(x, s) && |at| == |t|
    requires forall g :: GoodFresh(x.mem, x.c, g) ==> OldRep(x.r2, x.mem2, g)
    requires forall g :: OldRep(x.r, x.mem, g) ==> !FreshRep(|x.mem|, x.c, g)
    requires forall g :: g in s ==> Known(x, g)
    requires forall j :: 0 <= j < |t| ==> at[j] < |s| && t[j] == s[at[j]]
    requires forall i, j :: 0 <= i < j < |t| ==> at[i] <= at[j]
    ensures RepliesOrdered(x, t)
  {
    forall i, j | 0 <= i < j < |t| && FreshRep(|x.mem|, x.c, t[i]) ensures OldRep(x.r2, x.mem2, t[j]) {
      if at[i] == at[j] {
        assert t[j] in s;
      }
    }
  }

  /** Where each element of a cut or repeated sequence came from. */
  function WithoutMap(n: nat, i: nat): seq<nat>
    requires i < n
  {
    seq(n - 1, j requires 0 <= j => if j < i then j else j + 1)
  }

  function TwiceMap(n: nat, i: nat): seq<nat>
    requires i < n
  {
    seq(n + 1, j requires 0 <= j => if j <= i then j else j - 1)
  }

  lemma {:induction false} UpEvents(inOrder: bool, x: Context, s: Link, e: Event)
    requires InExchange(x, s) && Can(inOrder, s, e) && (e.DropUp? || e.RepeatUp?)
    ensures InExchange(x, Do(inOrder, s, e))
  {
    if e.DropUp? {
      FreshLastCut(x, s.up, Without(s.up, e.i), WithoutMap(|s.up|, e.i));
    } else {
      FreshLastCut(x, s.up, Twice(s.up, e.i), TwiceMap(|s.up|, e.i));
    }
  }

  lemma {:induction false} InExchangeThinner(x: Context, s: Link, down: seq<Frame>)
    requires InExchange(x, s) && RepliesOrdered(x, down)
    requires forall g :: g in down ==> g in s.down
    ensures InExchange(x, s.(down := down))
  {
  }

  lemma {:induction false} DownEvents(inOrder: bool, x: Context, s: Link, e: Event)
    requires Proper(inOrder, x) && InExchange(x, s) && Can(inOrder, s, e) && (e.DropDown? || e.RepeatDown?)
    ensures InExchange(x, Do(inOrder, s, e))
  {
    FreshIsNew(inOrder, x);
    if e.DropDown? {
      OrderedCut(x, s.down, Without(s.down, e.i), WithoutMap(|s.down|, e.i));
      InExchangeThinner(x, s, Without(s.down, e.i));
    } else {
      OrderedCut(x, s.down, Twice(s.down, e.i), TwiceMap(|s.down|, e.i));
      InExchangeThinner(x, s, Twice(s.down, e.i));
    }
  }

  lemma {:induction false} OrderedConcat(x: Context, a: seq<Frame>, b: seq<Frame>)
    requires RepliesOrdered(x, a) && RepliesOrdered(x, b)
    requires (exists g :: g in a && FreshRep(|x.mem|, x.c, g)) ==> forall g :: g in b ==> OldRep(x.r2, x.mem2, g)
    ensures RepliesOrdered(x, a + b)
  {
    var t := a + b;
    forall i, j | 0 <= i < j < |t| && FreshRep(|x.mem|, x.c, t[i]) ensures OldRep(x.r2, x.mem2, t[j]) {
      if i < |a| {
        assert t[i] in a;
        if |a| <= j {
          assert t[j] in b;
        }
      } else {
        assert t[i] == b[i - |a|] && t[j] == b[j - |a|];
      }
    }
  }

  /** Once the open request has been served, only copies of it are still on their way. */
  lemma {:induction false} ServedLeavesFresh(x: Context, up: seq<Frame>, n: nat)
    requires n <= |up| && FreshLast(x, up) && Request(x.c) in up[..n]
    ensures forall f :: f in up[n..] ==> f.ConOut? || f == Request(x.c)
  {
    var i :| 0 <= i < n && up[..n][i] == Request(x.c);
    forall f | f in up[n..] ensures f.ConOut? || f == Request(x.c) {
      var j :| 0 <= j < |up| - n && up[n..][j] == f;
      assert up[i] == up[..n][i] && up[n + j] == f;
    }
  }

  lemma {:induction false} ServedBatch(inOrder: bool, x: Context, s: Link, n: nat)
    requires Proper(inOrder, x) && InExchange(x, s) && n <= |s.up| && (inOrder ==> n <= 1)
    ensures var batch := s.up[..n]; ServedOk(x, s, batch, Replies(ServingOrder(batch), s.pages), PagesAfter(ServingOrder(batch), s.pages))
  {
    var batch := s.up[..n];
    assert FreshLast(x, batch);
    if OnlyFresh(x, s) {
      ServeOnlyFresh(inOrder, x, s, batch);
    } else {
      ServeMixed(inOrder, x, s, batch);
    }
  }

  lemma {:induction false} ServedDown(x: Context, s: Link, batch: seq<Frame>, rs: seq<Frame>, pages: seq<Page>)
    requires InExchange(x, s) && ServedOk(x, s, batch, rs, pages)
    ensures RepliesOrdered(x, s.down + rs)
    ensures (exists g :: g in Live(s) && FreshRep(|x.mem|, x.c, g)) ==> forall g :: g in s.down + rs ==> OldRep(x.r2, x.mem2, g)
  {
    OrderedConcat(x, s.down, rs);
  }

  lemma {:induction false} HostEvent(inOrder: bool, x: Context, s: Link, n: nat)
    requires Proper(inOrder, x) && InExchange(x, s) && Can(inOrder, s, HostServes(n))
    ensures InExchange(x, Do(inOrder, s, HostServes(n)))
  {
    var batch := s.up[..n];
    var rs, pages := Replies(ServingOrder(batch), s.pages), PagesAfter(ServingOrder(batch), s.pages);
    ServedBatch(inOrder, x, s, n);
    ServedDown(x, s, batch, rs, pages);
    if Request(x.c) in batch {
      ServedLeavesFresh(x, s.up, n);
    }
    HostServed(x, s, n, rs, pages);
  }

  lemma {:induction false} HostServed(x: Context, s: Link, n: nat, rs: seq<Frame>, pages: seq<Page>)
    requires InExchange(x, s) && n <= |s.up| && ServedOk(x, s, s.up[..n], rs, pages)
    requires RepliesOrdered(x, s.down + rs)
    requires (exists g :: g in Live(s) && FreshRep(|x.mem|, x.c, g)) ==> forall g :: g in s.down + rs ==> OldRep(x.r2, x.mem2, g)
    requires Request(x.c) in s.up[..n] ==> forall f :: f in s.up[n..] ==> f.ConOut? || f == Request(x.c)
    ensures InExchange(x, s.(up := s.up[n..], down := s.down + rs, pages := pages))
  {
    assert FreshLast(x, s.up[n..]);
  }

  ghost predicate PurgedWhenReady(s: Link) {
    s.phase.Ready? ==> forall g :: g in s.held ==> !IsResponse(g)
  }

  lemma {:induction false} ConsoleEvent(inOrder: bool, x: Context, s: Link, bytes: seq<bv8>)
    requires Proper(inOrder, x) && InExchange(x, s)
    ensures InExchange(x, s.(down := s.down + [ConIn(bytes)]))
  {
    FreshIsNew(inOrder, x);
    OrderedConcat(x, s.down, [ConIn(bytes)]);
  }

  lemma {:induction false} TransmitEvent(inOrder: bool, x: Context, s: Link)
    requires InExchange(x, s) && Can(inOrder, s, Transmit) && s.phase == Ready(x.c) && PurgedWhenReady(s)
    requires Proper(inOrder, x)
    ensures InExchange(x, Do(inOrder, s, Transmit))
  {
    var t := Do(inOrder, s, Transmit);
    assert Live(t) == s.held && Live(s) == [];
    assert forall g :: g in Live(t) ==> !FreshRep(|x.mem|, x.c, g);
    FreshLastGrows(x, s.up);
  }

  lemma {:induction false} FreshLastGrows(x: Context, up: seq<Frame>)
    requires FreshLast(x, up)
    ensures FreshLast(x, up + [Request(x.c)])
  {
  }

  lemma {:induction false} HeldEvent(inOrder: bool, x: Context, s: Link, held: seq<Frame>, phase: Phase)
    requires InExchange(x, s) && (phase.Awaiting? ==> s.phase.Awaiting?) && forall g :: g in held ==> g in s.held
    ensures InExchange(x, s.(held := held, phase := phase))
  {
    var t := s.(held := held, phase := phase);
    assert forall g :: g in Live(t) ==> g in Live(s);
  }

  lemma {:induction false} ClientEvents(inOrder: bool, x: Context, s: Link, e: Event)
    requires Proper(inOrder, x) && InExchange(x, s) && Can(inOrder, s, e)
    requires e.HostConsole? || e.Purge? || e.Transmit? || e.DropMismatch? || e.DropStrayErr?
    requires s.phase == Opened(x.c) || s.phase == Ready(x.c) || s.phase == Awaiting(x.c)
    requires PurgedWhenReady(s)
    ensures InExchange(x, Do(inOrder, s, e)) && PurgedWhenReady(Do(inOrder, s, e))
  {
    match e {
      case HostConsole(bytes) => ConsoleEvent(inOrder, x, s, bytes);
      case Purge =>
        PurgedMembers(s.held);
        HeldEvent(inOrder, x, s, Purged(s.held), Ready(x.c));
      case Transmit => TransmitEvent(inOrder, x, s);
      case DropMismatch => HeldEvent(inOrder, x, s, WithoutFirst(s.held, Want(x.c)), s.phase);
      case DropStrayErr => HeldEvent(inOrder, x, s, WithoutFirst(s.held, TY_ERR), s.phase);
    }
  }

  lemma {:induction false} AbsorbedFresh(inOrder: bool, x: Context, s: Link, n: nat, g: Frame)
    requires Proper(inOrder, x) && InExchange(x, s) && n <= |s.down| && s.phase.Awaiting?
    requires FreshRep(|x.mem|, x.c, g) && (g in s.down[..n] || g in Live(s))
    ensures forall h :: h in s.down[n..] ==> OldRep(x.r2, x.mem2, h)
  {
    if g !in Live(s) {
      var i :| 0 <= i < n && s.down[..n][i] == g;
      forall h | h in s.down[n..] ensures OldRep(x.r2, x.mem2, h) {
        var j :| 0 <= j < |s.down| - n && s.down[n..][j] == h;
        assert s.down[i] == g && s.down[n + j] == h;
      }
    }
  }

  lemma {:induction false} OrderedRest(x: Context, down: seq<Frame>, n: nat)
    requires RepliesOrdered(x, down) && n <= |down|
    ensures RepliesOrdered(x, down[n..])
  {
    var rest := down[n..];
    forall i, j | 0 <= i < j < |rest| && FreshRep(|x.mem|, x.c, rest[i]) ensures OldRep(x.r2, x.mem2, rest[j]) {
      assert rest[i] == down[n + i] && rest[j] == down[n + j];
    }
  }

  lemma {:induction false} AbsorbEvent(inOrder: bool, x: Context, s: Link, n: nat)
    requires Proper(inOrder, x) && InExchange(x, s) && Can(inOrder, s, Absorb(n)) && s.phase == Awaiting(x.c)
    ensures InExchange(x, Do(inOrder, s, Absorb(n)))
  {
    var t := Do(inOrder, s, Absorb(n));
    PageFramesMembers(s.down[..n]);
    OrderedRest(x, s.down, n);
    if g :| g in Live(t) && FreshRep(|x.mem|, x.c, g) {
      AbsorbedFresh(inOrder, x, s, n, g);
    }
    assert forall g :: g in Live(t) ==> g in Live(s) || g in s.down;
    assert SeenFresh(x, t) ==> SeenFresh(x, s);
  }

  /** The exchange ends on an answer to itself, and leaves only what its successor may find. */
  lemma {:induction false} AcceptInExchange(inOrder: bool, x: Context, s: Link, e: Event)
    requires Proper(inOrder, x) && InExchange(x, s) && Can(inOrder, s, e) && s.phase == Awaiting(x.c)
    requires e.Accept? || e.AcceptErr?
    ensures var t := Do(inOrder, s, e);
            Settled(x.r2, x.mem2, t) && t.log == s.log + [Done(x.c, Expected(x.mem, x.c))]
  {
    FreshIsNew(inOrder, x);
    var g := First(s.held, if e.Accept? then Want(x.c) else TY_ERR);
    assert g in Live(s) && IsResponse(g) && Known(x, g);
    assert !OldRep(x.r, x.mem, g);
  }

  // ---- the same with nothing to tell apart ----

  lemma {:induction false} SettledEvents(inOrder: bool, r: Residue, mem: seq<Page>, s: Link, e: Event)
    requires Settled(r, mem, s) && Can(inOrder, s, e)
    requires e.DropUp? || e.DropDown? || e.RepeatUp? || e.RepeatDown? || e.HostConsole? || e.SendConsole? || e.DropMismatch? || e.DropStrayErr?
    ensures Settled(r, mem, Do(inOrder, s, e))
  {
  }

  lemma {:induction false} SettledHost(inOrder: bool, r: Residue, mem: seq<Page>, s: Link, n: nat)
    requires Settled(r, mem, s) && Can(inOrder, s, HostServes(n))
    ensures Settled(r, mem, Do(inOrder, s, HostServes(n)))
  {
    ServingOrderMembers(s.up[..n]);
    RepliesOld(r, mem, ServingOrder(s.up[..n]));
  }

  lemma {:induction false} SettledClient(inOrder: bool, r: Residue, mem: seq<Page>, s: Link, e: Event)
    requires Settled(r, mem, s) && Can(inOrder, s, e)
    requires e.Purge? || e.Transmit? || e.Absorb?
    requires s.phase.Opened? || s.phase.Ready? || s.phase.Awaiting? ==> Blends(|mem|, r, s.phase.op)
    requires s.phase.Ready? ==> forall g :: g in s.held ==> !IsResponse(g)
    ensures Settled(r, mem, Do(inOrder, s, e))
    ensures var t := Do(inOrder, s, e); t.phase.Ready? ==> forall g :: g in t.held ==> !IsResponse(g)
  {
    PurgedMembers(s.held);
    if e.Absorb? {
      PageFramesMembers(s.down[..e.n]);
    }
  }

  lemma {:induction false} AcceptSettled(inOrder: bool, r: Residue, mem: seq<Page>, s: Link, e: Event)
    requires Settled(r, mem, s) && Can(inOrder, s, e) && (e.Accept? || e.AcceptErr?)
    requires Blends(|mem|, r, s.phase.op)
    ensures var t := Do(inOrder, s, e);
            && Settled(Track(inOrder, |mem|, r, s.phase.op), Remember(mem, s.phase.op), t)
            && t.log == s.log + [Done(s.phase.op, Expected(mem, s.phase.op))]
  {
    var g := First(s.held, if e.Accept? then Want(s.phase.op) else TY_ERR);
    assert g in Live(s) && IsResponse(g) && OldRep(r, mem, g);
  }

  // ---- whole runs ----

  lemma {:induction false} MemoryStep(mem: seq<Page>, ops: seq<Op>, op: Op)
    ensures Memory(mem, ops + [op]) == Remember(Memory(mem, ops), op)
  {
    assert (ops + [op])[..|ops|] == ops;
  }

  lemma {:induction false} TrackedStep(inOrder: bool, size: nat, ops: seq<Op>, op: Op)
    ensures Tracked(inOrder, size, ops + [op]) == Track(inOrder, size, Tracked(inOrder, size, ops), op)
  {
    assert (ops + [op])[..|ops|] == ops;
  }

  lemma {:induction false} GuardedStep(inOrder: bool, size: nat, ops: seq<Op>, op: Op)
    ensures Guarded(inOrder, size, ops + [op]) <==> Guarded(inOrder, size, ops) && !Hazard(size, Tracked(inOrder, size, ops), op)
  {
    var t := ops + [op];
    assert forall k :: 0 <= k < |ops| ==> t[..k] == ops[..k] && t[k] == ops[k];
    assert t[..|ops|] == ops;
  }

  lemma {:induction false} TrackedShape(inOrder: bool, size: nat, ops: seq<Op>)
    ensures var r := Tracked(inOrder, size, ops); (r.Stale? ==> r.page < size) && (inOrder && r.Stale? ==> r.seen.None?)
  {
    if ops != [] {
      TrackedShape(inOrder, size, ops[..|ops| - 1]);
    }
  }

  ghost predicate OpenInv(inOrder: bool, r: Residue, mem: seq<Page>, s: Link)
    requires s.phase.Opened? || s.phase.Ready? || s.phase.Awaiting?
  {
    var c := s.phase.op;
    && PurgedWhenReady(s)
    && (Blends(|mem|, r, c) ==> Settled(r, mem, s))
    && (!Blends(|mem|, r, c) && !Hazard(|mem|, r, c) ==>
          InExchange(Context(r, mem, c, Track(inOrder, |mem|, r, c), Remember(mem, c)), s))
  }

  ghost predicate Inv(inOrder: bool, init: seq<Page>, s: Link) {
    Guarded(inOrder, |init|, Ops(s.log)) ==>
      var r, mem := Tracked(inOrder, |init|, Ops(s.log)), Memory(init, Ops(s.log));
      && Coherent(init, s.log)
      && (s.phase.Idle? ==> Settled(r, mem, s))
      && (s.phase.Opened? || s.phase.Ready? || s.phase.Awaiting? ==> OpenInv(inOrder, r, mem, s))
  }

  lemma {:induction false} StaysPurged(inOrder: bool, s: Link, e: Event)
    requires s.phase.Opened? || s.phase.Ready? || s.phase.Awaiting?
    requires PurgedWhenReady(s) && Can(inOrder, s, e) && !e.Accept? && !e.AcceptErr? && !e.Fail?
    ensures PurgedWhenReady(Do(inOrder, s, e))
  {
    PurgedMembers(s.held);
  }

  /** An event during an exchange that leaves memory as it may already be. */
  lemma {:induction false} BlendingEvent(inOrder: bool, r: Residue, mem: seq<Page>, s: Link, e: Event)
    requires s.phase.Opened? || s.phase.Ready? || s.phase.Awaiting?
    requires Settled(r, mem, s) && PurgedWhenReady(s) && Can(inOrder, s, e) && Blends(|mem|, r, s.phase.op)
    requires !e.Accept? && !e.AcceptErr? && !e.Fail?
    ensures Settled(r, mem, Do(inOrder, s, e)) && PurgedWhenReady(Do(inOrder, s, e))
  {
    PurgedMembers(s.held);
    match e
    case HostServes(n) => SettledHost(inOrder, r, mem, s, n);
    case Purge => SettledClient(inOrder, r, mem, s, e);
    case Transmit => SettledClient(inOrder, r, mem, s, e);
    case Absorb(_) => SettledClient(inOrder, r, mem, s, e);
    case _ => SettledEvents(inOrder, r, mem, s, e);
  }

  /** And during any other. */
  lemma {:induction false} ExchangeEvent(inOrder: bool, x: Context, s: Link, e: Event)
    requires s.phase == Opened(x.c) || s.phase == Ready(x.c) || s.phase == Awaiting(x.c)
    requires Proper(inOrder, x) && InExchange(x, s) && PurgedWhenReady(s) && Can(inOrder, s, e)
    requires !e.Accept? && !e.AcceptErr? && !e.Fail?
    ensures InExchange(x, Do(inOrder, s, e)) && PurgedWhenReady(Do(inOrder, s, e))
  {
    match e
    case HostServes(n) => HostEvent(inOrder, x, s, n);
    case Absorb(n) => AbsorbEvent(inOrder, x, s, n);
    case DropUp(_) => UpEvents(inOrder, x, s, e);
    case DropDown(_) => DownEvents(inOrder, x, s, e);
    case RepeatUp(_) => UpEvents(inOrder, x, s, e);
    case RepeatDown(_) => DownEvents(inOrder, x, s, e);
    case _ => ClientEvents(inOrder, x, s, e);
  }

  lemma {:induction false} InvOpen(inOrder: bool, r: Residue, mem: seq<Page>, s: Link, e: Event)
    requires r.Stale? ==> r.page < |mem|
    requires inOrder && r.Stale? ==> r.seen.None?
    requires s.phase.Opened? || s.phase.Ready? || s.phase.Awaiting?
    requires OpenInv(inOrder, r, mem, s) && Can(inOrder, s, e)
    requires !e.Accept? && !e.AcceptErr? && !e.Fail?
    ensures OpenInv(inOrder, r, mem, Do(inOrder, s, e))
  {
    var c := s.phase.op;
    if Blends(|mem|, r, c) {
      BlendingEvent(inOrder, r, mem, s, e);
    } else if !Hazard(|mem|, r, c) {
      ExchangeEvent(inOrder, Context(r, mem, c, Track(inOrder, |mem|, r, c), Remember(mem, c)), s, e);
    } else {
      StaysPurged(inOrder, s, e);
    }
  }

  lemma {:induction false} InvBegin(inOrder: bool, r: Residue, mem: seq<Page>, s: Link, c: Op)
    requires r.Stale? ==> r.page < |mem|
    requires inOrder && r.Stale? ==> r.seen.None?
    requires s.phase.Idle? && Settled(r, mem, s)
    ensures OpenInv(inOrder, r, mem, Do(inOrder, s, Begin(c)))
  {
    if !Blends(|mem|, r, c) && !Hazard(|mem|, r, c) {
      FreshIsNew(inOrder, Context(r, mem, c, Track(inOrder, |mem|, r, c), Remember(mem, c)));
    }
  }

  lemma {:induction false} CoherentStep(init: seq<Page>, log: seq<Done>, d: Done)
    requires Coherent(init, log) && d.outcome == Expected(Memory(init, Ops(log)), d.op)
    ensures Coherent(init, log + [d])
  {
    var t := log + [d];
    assert forall i :: 0 <= i < |log| ==> t[..i] == log[..i] && t[i] == log[i];
    assert t[..|log|] == log;
  }

  lemma {:induction false} InvAccept(inOrder: bool, init: seq<Page>, s: Link, e: Event)
    requires Inv(inOrder, init, s) && Can(inOrder, s, e) && (e.Accept? || e.AcceptErr?)
    ensures Inv(inOrder, init, Do(inOrder, s, e))
  {
    var t, c := Do(inOrder, s, e), s.phase.op;
    var ops := Ops(s.log);
    var r, mem := Tracked(inOrder, |init|, ops), Memory(init, ops);
    assert Ops(t.log) == ops + [c];
    GuardedStep(inOrder, |init|, ops, c);
    TrackedStep(inOrder, |init|, ops, c);
    TrackedShape(inOrder, |init|, ops);
    MemoryStep(init, ops, c);
    if Guarded(inOrder, |init|, Ops(t.log)) {
      if Blends(|mem|, r, c) {
        AcceptSettled(inOrder, r, mem, s, e);
      } else {
        AcceptInExchange(inOrder, Context(r, mem, c, Track(inOrder, |mem|, r, c), Remember(mem, c)), s, e);
      }
      CoherentStep(init, s.log, Done(c, Expected(mem, c)));
    }
  }

  lemma {:induction false} InvStep(inOrder: bool, init: seq<Page>, s: Link, e: Event)
    requires Inv(inOrder, init, s) && Can(inOrder, s, e)
    ensures Inv(inOrder, init, Do(inOrder, s, e))
  {
    if e.Accept? || e.AcceptErr? {
      InvAccept(inOrder, init, s, e);
    } else if Guarded(inOrder, |init|, Ops(s.log)) {
      var r, mem := Tracked(inOrder, |init|, Ops(s.log)), Memory(init, Ops(s.log));
      TrackedShape(inOrder, |init|, Ops(s.log));
      if s.phase.Idle? {
        match e
        case Begin(c) => InvBegin(inOrder, r, mem, s, c);
        case HostServes(n) => SettledHost(inOrder, r, mem, s, n);
        case Absorb(_) => SettledClient(inOrder, r, mem, s, e);
        case _ => SettledEvents(inOrder, r, mem, s, e);
      } else if s.phase != Dead && !e.Fail? {
        InvOpen(inOrder, r, mem, s, e);
      }
    }
  }

  lemma {:induction false} InvRun(inOrder: bool, init: seq<Page>, s: Link, es: seq<Event>)
    requires Inv(inOrder, init, s) && Legal(inOrder, s, es)
    ensures Inv(inOrder, init, After(inOrder, s, es))
    decreases es
  {
    if es != [] {
      InvStep(inOrder, init, s, es[0]);
      InvRun(inOrder, init, Do(inOrder, s, es[0]), es[1..]);
    }
  }

  /**
   In every run up to the first failed exchange, if no completed operation is a write that a
   stale acknowledgement could satisfy, every exchange returned what plain memory would have.
   */
  lemma {:induction false} RunsAreCoherent(inOrder: bool, init: seq<Page>, es: seq<Event>)
    requires Legal(inOrder, Start(init), es)
    requires Guarded(inOrder, |init|, Ops(After(inOrder, Start(init), es).log))
    ensures Coherent(init, After(inOrder, Start(init), es).log)
    ensures var s := After(inOrder, Start(init), es); s.phase.Idle? ==> s.pages == Memory(init, Ops(s.log))
  {
    InvRun(inOrder, init, Start(init), es);
  }

  // ---- what is in flight when an exchange has completed ----

  ghost predicate InRange(size: nat, ops: seq<Op>) {
    forall i :: 0 <= i < |ops| ==> ops[i].page < size
  }

  lemma {:induction false} InRangeTracked(inOrder: bool, size: nat, ops: seq<Op>)
    requires InRange(size, ops) && ops != []
    ensures var r, c := Tracked(inOrder, size, ops), ops[|ops| - 1];
            && !r.Clear? && r != Calm(None) && (r.Calm? ==> r.focus.value < size) && (r.Stale? && r.seen.Some? ==> r.seen.value < size)
            && (forall p :: About(r, p) <==> c.Read? && p == c.page)
            && (r.Stale? && r.seen.None? <==> c.Write?)
            && (c.Write? ==> r.page == c.page)
            && (inOrder && r.Stale? ==> r.seen.None?)
  {
    var init := ops[..|ops| - 1];
    if init != [] {
      InRangeTracked(inOrder, size, init);
    }
  }

  lemma {:induction false} MemoryHoldsLastWrite(mem: seq<Page>, ops: seq<Op>)
    requires ops != [] && ops[|ops| - 1].Write? && ops[|ops| - 1].page < |mem|
    ensures Memory(mem, ops)[ops[|ops| - 1].page] == ops[|ops| - 1].data
  {
  }

  /** A copy of the request of the last completed exchange. */
  ghost predicate IsCopy(c: Op, f: Frame) {
    f.ConOut? || f == Request(c)
  }

  /** An answer to the last completed exchange. */
  ghost predicate IsAnswer(mem: seq<Page>, c: Op, g: Frame) {
    g.ConIn? || (c.page < |mem| && g == (if c.Read? then ReadResp(c.page, mem[c.page]) else WriteAck(c.page)))
  }

  lemma {:induction false} SettledReq(inOrder: bool, init: seq<Page>, ops: seq<Op>, f: Frame)
    requires InRange(|init|, ops) && ops != []
    requires OldReq(Tracked(inOrder, |init|, ops), Memory(init, ops), f)
    ensures IsCopy(ops[|ops| - 1], f)
  {
    InRangeTracked(inOrder, |init|, ops);
    if ops[|ops| - 1].Write? {
      MemoryHoldsLastWrite(init, ops);
    }
  }

  lemma {:induction false} SettledRep(inOrder: bool, init: seq<Page>, ops: seq<Op>, g: Frame)
    requires InRange(|init|, ops) && ops != []
    requires OldRep(Tracked(inOrder, |init|, ops), Memory(init, ops), g)
    ensures var c, r := ops[|ops| - 1], Tracked(inOrder, |init|, ops);
            IsAnswer(Memory(init, ops), c, g) || (!inOrder && c.Read? && r.Stale? && g == WriteAck(r.page))
  {
    InRangeTracked(inOrder, |init|, ops);
  }

  /** What may be in flight after operation `c` of a guarded history. */
  ghost predicate OnlyOfLast(inOrder: bool, r: Residue, c: Op, s: Link) {
    && (forall f :: f in s.up ==> IsCopy(c, f))
    && (forall g :: g in s.down ==> IsAnswer(s.pages, c, g) || (!inOrder && c.Read? && r.Stale? && g == WriteAck(r.page)))
  }

  lemma {:induction false} SettledInFlight(inOrder: bool, init: seq<Page>, ops: seq<Op>, s: Link)
    requires InRange(|init|, ops) && ops != [] && Settled(Tracked(inOrder, |init|, ops), Memory(init, ops), s)
    ensures OnlyOfLast(inOrder, Tracked(inOrder, |init|, ops), ops[|ops| - 1], s)
  {
    forall f | f in s.up ensures IsCopy(ops[|ops| - 1], f) {
      SettledReq(inOrder, init, ops, f);
    }
    var c, r := ops[|ops| - 1], Tracked(inOrder, |init|, ops);
    forall g | g in s.down ensures IsAnswer(s.pages, c, g) || (!inOrder && c.Read? && r.Stale? && g == WriteAck(r.page)) {
      SettledRep(inOrder, init, ops, g);
    }
  }

  /**
   Between exchanges every frame in flight is a copy of the last request or an answer to it,
   except that behind a read there may be an acknowledgement of the write before it; the
   exception needs a host that served both from one read of its port.
   */
  lemma {:induction false} InFlightBetweenExchanges(inOrder: bool, init: seq<Page>, es: seq<Event>, s: Link)
    requires Legal(inOrder, Start(init), es) && s == After(inOrder, Start(init), es)
    requires s.phase.Idle? && s.log != [] && InRange(|init|, Ops(s.log)) && Guarded(inOrder, |init|, Ops(s.log))
    ensures OnlyOfLast(inOrder, Tracked(inOrder, |init|, Ops(s.log)), s.log[|s.log| - 1].op, s)
  {
    InvRun(inOrder, init, Start(init), es);
    InFlightSettled(inOrder, init, s);
  }

  lemma {:induction false} InFlightSettled(inOrder: bool, init: seq<Page>, s: Link)
    requires Inv(inOrder, init, s)
    requires s.phase.Idle? && s.log != [] && InRange(|init|, Ops(s.log)) && Guarded(inOrder, |init|, Ops(s.log))
    ensures OnlyOfLast(inOrder, Tracked(inOrder, |init|, Ops(s.log)), s.log[|s.log| - 1].op, s)
  {
    SettledInFlight(inOrder, init, Ops(s.log), s);
  }

  /** For a host that serves in order, the guard is: no two consecutive writes of one page. */
  lemma {:induction false} InOrderGuard(size: nat, ops: seq<Op>)
    ensures Guarded(true, size, ops) <==>
            forall k :: 0 < k < |ops| ==> !(ops[k - 1].Write? && ops[k].Write? && ops[k - 1].page == ops[k].page < size)
  {
    forall k | 0 <= k < |ops|
      ensures Hazard(size, Tracked(true, size, ops[..k]), ops[k]) <==>
              k > 0 && ops[k - 1].Write? && ops[k].Write? && ops[k - 1].page == ops[k].page < size
    {
      InOrderStale(size, ops[..k]);
    }
  }

  lemma {:induction false} InOrderStale(size: nat, ops: seq<Op>)
    ensures var r := Tracked(true, size, ops);
            && (r.Stale? <==> ops != [] && !Quiet(size, ops[|ops| - 1]))
            && (r.Stale? ==> r == Stale(ops[|ops| - 1].page, None))
  {
    if ops != [] {
      InOrderStale(size, ops[..|ops| - 1]);
    }
  }
}
