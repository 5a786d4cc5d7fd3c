/** The laptop end of the link: an array of pages behind a request loop. */
module HostServe {
  import opened Wrappers
  import opened Frames
  import opened MuxModule

  const ERR_READ: nat := 1
  const ERR_WRITE: nat := 2

  type Requests = fs: seq<Frame> | forall f :: f in fs ==> IsRequest(f) witness []

  /** The reply to one request, given what the pages hold when it is served. */
  function Answer(f: Frame, pages: seq<Page>): Frame
    requires IsRequest(f)
  {
    match f
    case ReadReq(p) => if p < |pages| then ReadResp(p, pages[p]) else Err(ERR_READ, p)
    case WriteReq(p, _) => if p < |pages| then WriteAck(p) else Err(ERR_WRITE, p)
  }

  function Stored(f: Frame, pages: seq<Page>): (r: seq<Page>)
    ensures |r| == |pages|
  {
    if f.WriteReq? && f.page < |pages| then pages[f.page := f.data] else pages
  }

  function Replies(fs: Requests, pages: seq<Page>): (r: seq<Frame>)
    ensures |r| == |fs|
  {
    if fs == [] then [] else [Answer(fs[0], pages)] + Replies(fs[1..], Stored(fs[0], pages))
  }

  function PagesAfter(fs: Requests, pages: seq<Page>): (r: seq<Page>)
    ensures |r| == |pages|
  {
    if fs == [] then pages else PagesAfter(fs[1..], Stored(fs[0], pages))
  }

  /** The order one call serves what it decoded: every read, then every write. */
  function ServingOrder(fs: seq<Frame>): Requests {
    OfTypeMembers(fs, TY_READ_REQ);
    OfTypeMembers(fs, TY_WRITE_REQ);
    OfType(fs, TY_READ_REQ) + OfType(fs, TY_WRITE_REQ)
  }

  class Host {
    var pages: seq<Page>
    const mux: Mux
    /** What the guest printed, as echoed by this end. */
    var echoed: seq<bv8>

    constructor (pages: seq<Page>)
      ensures this.pages == pages && fresh(mux) && mux.held == [] && echoed == []
    {
      this.pages, echoed := pages, [];
      mux := new Mux();
    }

    /** The next request to serve: a read if one is held, else a write. */
    method NextRequest() returns (r: Option<Frame>)
      modifies mux
      ensures r.Some? ==> IsRequest(r.value) && |mux.held| < old(|mux.held|)
      ensures r.None? ==> ServingOrder(mux.held) == [] && mux.held == old(mux.held)
      ensures Pending(r, mux.held) == ServingOrder(old(mux.held)) && mux.console == old(mux.console)
    {
      ghost var before := mux.held;
      r := mux.TakeMatching(TY_READ_REQ);
      if r.None? {
        r := mux.TakeMatching(TY_WRITE_REQ);
      }
      TakenOrder(before, r, mux.held);
    }

    /** Serves every request a read of the port completed. */
    method ServeOnce(frames: seq<Frame>) returns (out: seq<Frame>)
      requires ServingOrder(mux.held) == []
      modifies this, mux
      ensures out == Replies(ServingOrder(frames), old(pages))
      ensures pages == PagesAfter(ServingOrder(frames), old(pages))
      ensures ServingOrder(mux.held) == []
      ensures echoed == old(echoed) + old(mux.console) + ConsoleBytes(frames) && mux.console == []
    {
      hide ServingOrder, ConsoleBytes, PageFrames;
      PushedOrder(mux.held, frames);
      ghost var before, order := pages, ServingOrder(frames);
      mux.Push(frames);
      out := [];
      var r := NextRequest();
      while r.Some?
        invariant r.Some? ==> IsRequest(r.value)
        invariant r.None? ==> ServingOrder(mux.held) == []
        invariant out + Replies(Pending(r, mux.held), pages) == Replies(order, before)
        invariant PagesAfter(Pending(r, mux.held), pages) == PagesAfter(order, before)
        invariant echoed == old(echoed) && mux.console == old(mux.console) + ConsoleBytes(frames)
        decreases |mux.held| + if r.Some? then 1 else 0
      {
        var f := r.value;
        ServeStep(out, f, ServingOrder(mux.held), pages);
        out := out + [Answer(f, pages)];
        if f.WriteReq? && f.page < |pages| {
          pages := pages[f.page := f.data];
        }
        r := NextRequest();
      }
      var con := mux.TakeConsole();
      echoed := echoed + con;
    }
  }

  /** What is still to be served: the request just taken, then what the mux holds. */
  ghost function Pending(r: Option<Frame>, held: seq<Frame>): Requests
    requires r.Some? ==> IsRequest(r.value)
  {
    (if r.Some? then [r.value] else []) + ServingOrder(held)
  }

  lemma {:induction false} ServeStep(out: seq<Frame>, f: Frame, rest: Requests, pages: seq<Page>)
    requires IsRequest(f)
    ensures out + Replies([f] + rest, pages) == out + [Answer(f, pages)] + Replies(rest, Stored(f, pages))
    ensures PagesAfter([f] + rest, pages) == PagesAfter(rest, Stored(f, pages))
  {
    assert ([f] + rest)[1..] == rest;
  }

  lemma {:induction false} PushedOrder(held: seq<Frame>, frames: seq<Frame>)
    requires ServingOrder(held) == []
    ensures ServingOrder(held + PageFrames(frames)) == ServingOrder(frames)
  {
    OfTypeConcat(held, PageFrames(frames), TY_READ_REQ);
    OfTypeConcat(held, PageFrames(frames), TY_WRITE_REQ);
    PageFramesOfType(frames, TY_READ_REQ);
    PageFramesOfType(frames, TY_WRITE_REQ);
  }

  lemma {:induction false} TakenOrder(held: seq<Frame>, r: Option<Frame>, rest: seq<Frame>)
    requires r == if Holds(held, TY_READ_REQ) then Some(First(held, TY_READ_REQ))
                  else if Holds(held, TY_WRITE_REQ) then Some(First(held, TY_WRITE_REQ)) else None
    requires rest == if Holds(held, TY_READ_REQ) then WithoutFirst(held, TY_READ_REQ)
                     else if Holds(held, TY_WRITE_REQ) then WithoutFirst(held, TY_WRITE_REQ) else held
    ensures r.Some? ==> IsRequest(r.value) && |rest| < |held|
    ensures r.None? ==> ServingOrder(held) == []
    ensures Pending(r, rest) == ServingOrder(held)
  {
    FirstOfType(held, TY_READ_REQ);
    FirstOfType(held, TY_WRITE_REQ);
    if Holds(held, TY_READ_REQ) {
      WithoutFirstOthers(held, TY_READ_REQ, TY_WRITE_REQ);
    } else if Holds(held, TY_WRITE_REQ) {
      WithoutFirstOthers(held, TY_WRITE_REQ, TY_READ_REQ);
    }
  }

  lemma {:induction false} RepliesConcat(a: Requests, b: Requests, pages: seq<Page>)
    ensures Replies(a + b, pages) == Replies(a, pages) + Replies(b, PagesAfter(a, pages))
    ensures PagesAfter(a + b, pages) == PagesAfter(b, PagesAfter(a, pages))
  {
    if a == [] {
      assert a + b == b;
    } else {
      RepliesConcat(a[1..], b, Stored(a[0], pages));
      assert (a + b)[0] == a[0] && (a + b)[1..] == a[1..] + b;
    }
  }
}
