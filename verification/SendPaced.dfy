/** The transmit loop: a frame handed to a sink packet by packet, whatever the sink takes each time. */
module SendPaced {
  import opened Wrappers

  const SEND_RETRY_BUDGET: nat := 64

  datatype SendFault = Stalled | Link(error: int) | TimedOut(sent: nat, len: nat)

  function Min(a: nat, b: nat): nat {
    if a < b then a else b
  }

  function Zeros(s: seq<nat>): nat {
    if s == [] then 0 else Zeros(s[..|s| - 1]) + if s[|s| - 1] == 0 then 1 else 0
  }

  predicate NoneFails(results: seq<Result<nat, int>>) {
    forall i :: 0 <= i < |results| ==> results[i].Ok?
  }

  predicate FailsLast(results: seq<Result<nat, int>>, e: int) {
    results != [] && results[|results| - 1] == Error(e) && NoneFails(results[..|results| - 1])
  }

  predicate AllInTime(answers: seq<bool>) {
    forall i :: 0 <= i < |answers| ==> !answers[i]
  }

  predicate OutLast(answers: seq<bool>) {
    answers != [] && answers[|answers| - 1] && AllInTime(answers[..|answers| - 1])
  }

  /** What one send did, counted where the bytes change hands. */
  class TxTally {
    const asked: nat
    var calls: nat
    var accepted: nat
    var refusals: nat
    var shorts: nat

    constructor (asked: nat)
      ensures this.asked == asked && calls == accepted == refusals == shorts == 0
    {
      this.asked, calls, accepted, refusals, shorts := asked, 0, 0, 0, 0;
    }

    method Record(offered: nat, r: Result<nat, int>)
      modifies this
      ensures calls == old(calls) + 1
      ensures accepted == old(accepted) + if r.Ok? then r.value else 0
      ensures refusals == old(refusals) + if r == Ok(0) then 1 else 0
      ensures shorts == old(shorts) + if r.Ok? && 0 < r.value < offered then 1 else 0
    {
      calls := calls + 1;
      if r.Ok? {
        if r.value == 0 {
          refusals := refusals + 1;
        } else {
          accepted := accepted + r.value;
          if r.value < offered {
            shorts := shorts + 1;
          }
        }
      }
    }
  }

  /** A sink that takes at most what it is offered, the gap between calls, and the clock. */
  class Sink {
    /** Everything taken, in order; how much each successful call took; how much each call offered, and its result. */
    var taken: seq<bv8>
    var takes: seq<nat>
    var offers: seq<nat>
    var results: seq<Result<nat, int>>
    var gaps: nat
    /** What the clock answered, each time it was asked whether the time had run out. */
    var answers: seq<bool>
    const tally: TxTally

    constructor (asked: nat)
      ensures fresh(tally) && taken == [] && takes == [] && offers == [] && results == [] && gaps == 0 && answers == []
      ensures tally.asked == asked && Tallied()
    {
      taken, takes, offers, results, gaps, answers := [], [], [], [], 0, [];
      tally := new TxTally(asked);
    }

    /** The tally agrees with what changed hands. */
    ghost predicate Tallied()
      reads this, tally
    {
      tally.accepted == |taken| && tally.calls == |offers| && tally.refusals == Zeros(takes)
    }

    method WriteSome(offered: seq<bv8>) returns (r: Result<nat, int>)
      requires Tallied()
      modifies this`taken, this`takes, this`offers, this`results, tally
      ensures Tallied() && offers == old(offers) + [|offered|] && |results| == |old(results)| + 1
      ensures old(NoneFails(results)) ==> if r.Ok? then NoneFails(results) else FailsLast(results, r.error)
      ensures r.Ok? ==> r.value <= |offered| && taken == old(taken) + offered[..r.value] && takes == old(takes) + [r.value]
      ensures r.Error? ==> taken == old(taken) && takes == old(takes)
    {
      var n: int, e: int := *, *;
      r := if 0 <= n <= |offered| then Ok(n) else Error(e);
      offers, results := offers + [|offered|], results + [r];
      if r.Ok? {
        taken := taken + offered[..n];
        takes := takes + [n];
        assert takes[..|takes| - 1] == old(takes);
      }
      assert results[..|results| - 1] == old(results);
      tally.Record(|offered|, r);
    }

    method Gap()
      modifies this`gaps
      ensures gaps == old(gaps) + 1
    {
      gaps := gaps + 1;
    }

    method OutOfTime() returns (b: bool)
      modifies this`answers
      ensures old(AllInTime(answers)) ==> if b then OutLast(answers) else AllInTime(answers)
      ensures |answers| == |old(answers)| + 1
    {
      b := *;
      answers := answers + [b];
      assert answers[..|answers| - 1] == old(answers);
    }
  }

  predicate Small(offers: seq<nat>, chunk: nat) {
    forall i :: 0 <= i < |offers| ==> 0 < offers[i] <= if chunk == 0 then 1 else chunk
  }

  lemma {:induction false} Further(bytes: seq<bv8>, sent: nat, end: nat, n: nat)
    requires sent <= end <= |bytes| && n <= end - sent
    ensures bytes[..sent] + bytes[sent..end][..n] == bytes[..sent + n]
  {
  }

  /** One more call, after a gap unless it is the first. */
  method Offer(sink: Sink, first: bool, chunk: nat, bytes: seq<bv8>, sent: nat) returns (r: Result<nat, int>)
    requires sink.Tallied() && sent < |bytes| && sink.taken == bytes[..sent] && Small(sink.offers, chunk)
    requires NoneFails(sink.results) && |sink.results| == |sink.offers|
    modifies sink`gaps, sink`taken, sink`takes, sink`offers, sink`results, sink.tally
    ensures sink.Tallied() && sink.gaps == old(sink.gaps) + if first then 0 else 1
    ensures |sink.offers| == |old(sink.offers)| + 1 == |sink.results| && Small(sink.offers, chunk)
    ensures r.Ok? ==> sent + r.value <= |bytes| && sink.taken == bytes[..sent + r.value] && sink.takes == old(sink.takes) + [r.value]
    ensures r.Error? ==> sink.taken == bytes[..sent]
    ensures if r.Ok? then NoneFails(sink.results) else FailsLast(sink.results, r.error)
  {
    if !first {
      sink.Gap();
    }
    var end := Min(|bytes|, sent + if chunk == 0 then 1 else chunk);
    r := sink.WriteSome(bytes[sent..end]);
    if r.Ok? {
      Further(bytes, sent, end, r.value);
    }
  }

  /**
   Hands over `bytes`, at most `chunk` a call. Whatever happens, exactly a prefix has been handed
   over, in order and once; on success, all of it.
   */
  method Send(sink: Sink, chunk: nat, bytes: seq<bv8>) returns (fault: Option<SendFault>)
    requires sink.taken == [] && sink.takes == [] && sink.offers == [] && sink.results == [] && sink.gaps == 0 && sink.answers == [] && sink.Tallied()
    modifies sink, sink.tally
    ensures sink.Tallied() && sink.tally.accepted <= |bytes|
    ensures sink.taken == bytes[..sink.tally.accepted]
    ensures fault.None? ==> sink.taken == bytes
    ensures fault.Some? ==> sink.tally.accepted < |bytes|
    ensures Small(sink.offers, chunk)
    ensures sink.gaps == if sink.offers == [] then 0 else |sink.offers| - 1
    ensures |sink.offers| <= (SEND_RETRY_BUDGET + 1) * |bytes|
    ensures if fault.Some? && fault.value.Link? then FailsLast(sink.results, fault.value.error) else NoneFails(sink.results)
    ensures if fault.Some? && fault.value.TimedOut? then OutLast(sink.answers) else AllInTime(sink.answers)
    ensures |sink.answers| == |sink.results| + (if fault.Some? && fault.value.TimedOut? then 1 else 0)
    ensures |sink.offers| == |sink.results|
    ensures fault.Some? && fault.value.TimedOut? ==> fault.value == TimedOut(sink.tally.accepted, |bytes|)
    ensures fault == Some(Stalled) ==>
              |sink.takes| > SEND_RETRY_BUDGET && forall i :: |sink.takes| - SEND_RETRY_BUDGET - 1 <= i < |sink.takes| ==> sink.takes[i] == 0
  {
    var sent, idle, first := 0, 0, true;
    while sent < |bytes|
      invariant sink.Tallied() && sent == sink.tally.accepted <= |bytes|
      invariant sink.taken == bytes[..sent]
      invariant NoneFails(sink.results) && AllInTime(sink.answers) && |sink.answers| == |sink.results| == |sink.offers|
      invariant first <==> sink.offers == []
      invariant sink.gaps == if first then 0 else |sink.offers| - 1
      invariant Small(sink.offers, chunk)
      invariant |sink.offers| <= (SEND_RETRY_BUDGET + 1) * sent + idle
      invariant idle <= SEND_RETRY_BUDGET && idle <= |sink.takes| && (idle > 0 ==> sent < |bytes|)
      invariant forall i :: |sink.takes| - idle <= i < |sink.takes| ==> sink.takes[i] == 0
      decreases |bytes| - sent, SEND_RETRY_BUDGET - idle
    {
      var late := sink.OutOfTime();
      if late {
        return Some(TimedOut(sent, |bytes|));
      }
      var r := Offer(sink, first, chunk, bytes, sent);
      first := false;
      match r {
        case Ok(n) =>
          if n == 0 {
            idle := idle + 1;
            if idle > SEND_RETRY_BUDGET {
              return Some(Stalled);
            }
          } else {
            sent := sent + n;
            idle := 0;
          }
        case Error(e) => return Some(Link(e));
      }
    }
    return None;
  }
}
