/** When what the echo host serves does not depend on how the stream is cut into reads. */
module EchoReads {
  import opened Bytes
  import opened Wrappers
  import opened Sequences
  import opened EchoHost

  // ---- sufficiency ----

  /**
   The host has served what the stream asks for, and still holds all of it since
   the last token, or at least what a trim keeps.
   */
  ghost predicate Faithful(p: seq<byte>, h: State) {
    && h.served == Served(p)
    && Holding(p, h)
  }

  ghost predicate Holding(p: seq<byte>, h: State) {
    && EndsWith(p, h.buf)
    && |h.buf| <= SinceToken(p)
    && (|h.buf| == SinceToken(p) || (|h.buf| >= KEEP && SinceToken(p) > TRIM_OVER))
  }

  lemma {:induction false} SameCompletion(p: seq<byte>, h: State)
    requires Holding(p, h) && Kept(p)
    ensures Completed(h.buf) == Completed(p)
  {
    if |h.buf| == SinceToken(p) {
      CompletedAfterNewline(p, h.buf);
    } else {
      CompletedByTail(p, h.buf);
    }
  }

  lemma {:induction false} OneMoreByte(p: seq<byte>, b: byte)
    ensures Served(p + [b]) == Served(p) + Emitted(Completed, p, b)
    ensures SinceToken(p + [b]) == if Completes(Completed, p, b) then 0 else SinceToken(p) + 1
    ensures Safe(p + [b]) <==> Safe(p) && (b == LF ==> Kept(p))
  {
    assert (p + [b])[..|p|] == p;
  }

  lemma {:induction false} ByteFaithful(p: seq<byte>, h: State, b: byte)
    requires Faithful(p, h) && (b == LF ==> Kept(p))
    ensures Faithful(p + [b], Byte(Completed, h, b))
  {
    OneMoreByte(p, b);
    if b == LF {
      SameCompletion(p, h);
    }
    TailExtends(p, h.buf, b);
  }

  lemma {:induction false} TailExtends(p: seq<byte>, r: seq<byte>, b: byte)
    requires EndsWith(p, r)
    ensures EndsWith(p + [b], r + [b]) && EndsWith(p + [b], [])
  {
    assert (p + [b])[|p| - |r|..] == p[|p| - |r|..] + [b];
    assert (p + [b])[|p| + 1..] == [];
  }

  lemma {:induction false} FedFaithful(p: seq<byte>, h: State, t: seq<byte>)
    requires Faithful(p, h) && Safe(p + t)
    ensures Faithful(p + t, Fed(Completed, h, t))
  {
    if t == [] {
      assert p + t == p;
    } else {
      var u, b := t[..|t| - 1], t[|t| - 1];
      assert p + t == (p + u) + [b];
      OneMoreByte(p + u, b);
      FedFaithful(p, h, u);
      ByteFaithful(p + u, Fed(Completed, h, u), b);
    }
  }

  lemma {:induction false} TrimFaithful(p: seq<byte>, h: State)
    requires Faithful(p, h)
    ensures Faithful(p, Trimmed(h))
  {
    if |h.buf| > TRIM_OVER {
      assert p[|p| - KEEP..] == h.buf[|h.buf| - KEEP..];
    }
  }

  lemma {:induction false} SafePrefix(s: seq<byte>, t: seq<byte>)
    requires Safe(s + t)
    ensures Safe(s)
  {
    if t == [] {
      assert s + t == s;
    } else {
      assert s + t == (s + t[..|t| - 1]) + [t[|t| - 1]];
      OneMoreByte(s + t[..|t| - 1], t[|t| - 1]);
      SafePrefix(s, t[..|t| - 1]);
    }
  }

  /** A safe stream is served in full however it is cut. */
  lemma {:induction false} SafeReads(chunks: seq<seq<byte>>)
    requires Safe(Joined(chunks))
    ensures Faithful(Joined(chunks), Reads(Completed, Start, chunks))
  {
    if chunks != [] {
      var before, c := chunks[..|chunks| - 1], chunks[|chunks| - 1];
      SafePrefix(Joined(before), c);
      SafeReads(before);
      FedFaithful(Joined(before), Reads(Completed, Start, before), c);
      TrimFaithful(Joined(chunks), Fed(Completed, Reads(Completed, Start, before), c));
    }
  }

  // ---- necessity ----

  /** What a tail completes, the whole completes. */
  ghost predicate Suffixed(rule: Rule) {
    forall s: seq<byte>, r: seq<byte> {:trigger EndsWith(s, r)} :: EndsWith(s, r) && rule(r).Some? ==> rule(s).Some?
  }

  lemma {:induction false} CompletedIsSuffixed()
    ensures Suffixed(Completed)
  {
    forall s, r | EndsWith(s, r) && Completed(r).Some? ensures Completed(s).Some? {
      CompletedByTail(s, r);
    }
  }

  /** The host holds a tail of the stream and has served, since `h` at `p`, no more than the stream asks for. */
  ghost predicate Behind(rule: Rule, p: seq<byte>, h: State, q: seq<byte>, g: State) {
    && EndsWith(q, g.buf)
    && |g.served| - |h.served| <= |ServedBy(rule, q)| - |ServedBy(rule, p)|
  }

  lemma {:induction false} ByteBehind(rule: Rule, p: seq<byte>, h: State, q: seq<byte>, g: State, b: byte)
    requires Suffixed(rule) && Behind(rule, p, h, q, g)
    ensures Behind(rule, p, h, q + [b], Byte(rule, g, b))
  {
    assert (q + [b])[..|q|] == q;
    TailExtends(q, g.buf, b);
  }

  lemma {:induction false} FedBehind(rule: Rule, p: seq<byte>, h: State, q: seq<byte>, g: State, t: seq<byte>, k: nat)
    requires Suffixed(rule) && Behind(rule, p, h, q, g) && k <= |t|
    ensures Behind(rule, p, h, q + t[..k], Fed(rule, g, t[..k]))
  {
    if k == 0 {
      assert q + t[..0] == q;
    } else {
      FedBehind(rule, p, h, q, g, t, k - 1);
      ByteBehind(rule, p, h, q + t[..k - 1], Fed(rule, g, t[..k - 1]), t[k - 1]);
      LongerPrefix(t, k - 1);
      FedByte(rule, g, t[..k - 1], t[k - 1]);
      Reassociate(q, t[..k - 1], [t[k - 1]]);
    }
  }

  lemma {:induction false} TrimBehind(rule: Rule, p: seq<byte>, h: State, q: seq<byte>, g: State)
    requires Behind(rule, p, h, q, g)
    ensures Behind(rule, p, h, q, Trimmed(g))
  {
    if |g.buf| > TRIM_OVER {
      assert q[|q| - KEEP..] == g.buf[|g.buf| - KEEP..];
    }
  }

  /** However the rest of the stream is cut, the host stays behind. */
  lemma {:induction false} ReadsBehind(rule: Rule, p: seq<byte>, h: State, chunks: seq<seq<byte>>, q: seq<byte>)
    requires Suffixed(rule) && EndsWith(p, h.buf) && q == p + Joined(chunks)
    ensures Behind(rule, p, h, q, Reads(rule, h, chunks))
  {
    if chunks == [] {
      assert q == p;
    } else {
      var before, c := chunks[..|chunks| - 1], chunks[|chunks| - 1];
      var q' := p + Joined(before);
      ReadsBehind(rule, p, h, before, q');
      ReadBehind(rule, p, h, q', Reads(rule, h, before), c);
      Reassociate(p, Joined(before), c);
    }
  }

  lemma {:induction false} ReadBehind(rule: Rule, p: seq<byte>, h: State, q: seq<byte>, g: State, c: seq<byte>)
    requires Suffixed(rule) && Behind(rule, p, h, q, g)
    ensures Behind(rule, p, h, q + c, Trimmed(Fed(rule, g, c)))
  {
    FedBehind(rule, p, h, q, g, c, |c|);
    assert c[..|c|] == c;
    TrimBehind(rule, p, h, q + c, Fed(rule, g, c));
  }

  function Singles(s: seq<byte>): (c: seq<seq<byte>>)
    ensures Readable(c)
  {
    if s == [] then [] else Singles(s[..|s| - 1]) + [[s[|s| - 1]]]
  }

  lemma {:induction false} JoinedSingles(s: seq<byte>)
    ensures Joined(Singles(s)) == s
  {
    if s != [] {
      JoinedSingles(s[..|s| - 1]);
      assert Singles(s)[..|Singles(s)| - 1] == Singles(s[..|s| - 1]);
    }
  }

  lemma {:induction false} JoinedConcat(a: seq<seq<byte>>, b: seq<seq<byte>>)
    ensures Joined(a + b) == Joined(a) + Joined(b)
  {
    if b == [] {
      assert a + b == a;
    } else {
      JoinedConcat(a, b[..|b| - 1]);
      assert (a + b)[..|a + b| - 1] == a + b[..|b| - 1];
    }
  }

  lemma {:induction false} ReadsConcat(rule: Rule, h: State, a: seq<seq<byte>>, b: seq<seq<byte>>)
    ensures Reads(rule, h, a + b) == Reads(rule, Reads(rule, h, a), b)
  {
    if b == [] {
      assert a + b == a;
    } else {
      ReadsConcat(rule, h, a, b[..|b| - 1]);
      assert (a + b)[..|a + b| - 1] == a + b[..|b| - 1];
    }
  }

  /** The stream up to the newline of its first unsafe command. */
  lemma {:induction false} FirstUnsafe(s: seq<byte>) returns (u: seq<byte>, rest: seq<byte>)
    requires !Safe(s)
    ensures s == u + [LF] + rest && Safe(u) && !Kept(u)
  {
    var t, b := s[..|s| - 1], s[|s| - 1];
    assert s == t + [b];
    if Safe(t) {
      u, rest := t, [];
      assert s == u + [LF] + [];
    } else {
      u, rest := FirstUnsafe(t);
      rest := rest + [b];
      assert s == u + [LF] + rest;
    }
  }

  lemma {:induction false} SinceConcat(p: seq<byte>, t: seq<byte>)
    requires SinceToken(p + t) >= |t|
    ensures Served(p + t) == Served(p) && SinceToken(p + t) == SinceToken(p) + |t|
  {
    if t == [] {
      assert p + t == p;
    } else {
      assert p + t == (p + t[..|t| - 1]) + [t[|t| - 1]];
      OneMoreByte(p + t[..|t| - 1], t[|t| - 1]);
      SinceConcat(p, t[..|t| - 1]);
    }
  }

  lemma {:induction false} FedQuietly(p: seq<byte>, h: State, t: seq<byte>, k: nat)
    requires Faithful(p, h) && Safe(p + t) && SinceToken(p + t) >= |t| && k <= |t|
    ensures Fed(Completed, h, t[..k]) == State(h.buf + t[..k], h.served)
    ensures Faithful(p + t[..k], State(h.buf + t[..k], h.served))
  {
    if k == 0 {
      assert h.buf + t[..0] == h.buf && p + t[..0] == p;
    } else {
      FedQuietly(p, h, t, k - 1);
      NoTokenAt(p, t, k - 1);
      OneQuietByte(p + t[..k - 1], State(h.buf + t[..k - 1], h.served), t[k - 1]);
      LongerPrefix(t, k - 1);
      FedByte(Completed, h, t[..k - 1], t[k - 1]);
      Reassociate(h.buf, t[..k - 1], [t[k - 1]]);
      Reassociate(p, t[..k - 1], [t[k - 1]]);
    }
  }

  lemma {:induction false} OneQuietByte(p: seq<byte>, h: State, b: byte)
    requires Faithful(p, h) && (b == LF ==> Kept(p)) && !Completes(Completed, p, b)
    ensures Byte(Completed, h, b) == State(h.buf + [b], h.served) && Faithful(p + [b], State(h.buf + [b], h.served))
  {
    QuietByte(p, h, b);
    ByteFaithful(p, h, b);
  }

  lemma {:induction false} NoTokenAt(p: seq<byte>, t: seq<byte>, k: nat)
    requires Safe(p + t) && SinceToken(p + t) >= |t| && k < |t|
    ensures !Completes(Completed, p + t[..k], t[k]) && (t[k] == LF ==> Kept(p + t[..k]))
  {
    var q, rest := p + t[..k] + [t[k]], t[k + 1..];
    assert q + rest == p + t;
    SafePrefix(q, rest);
    SinceConcat(q, rest);
    OneMoreByte(p + t[..k], t[k]);
  }

  lemma {:induction false} QuietByte(p: seq<byte>, h: State, b: byte)
    requires Faithful(p, h) && (b == LF ==> Kept(p)) && !Completes(Completed, p, b)
    ensures Byte(Completed, h, b) == State(h.buf + [b], h.served)
  {
    if b == LF {
      SameCompletion(p, h);
    }
  }

  /** A read that ends just before the newline, long after the last token, loses the head of a long command. */
  lemma {:induction false} LosingRead(u: seq<byte>) returns (chunks: seq<seq<byte>>)
    requires Safe(u) && SinceToken(u) > TRIM_OVER
    ensures Readable(chunks) && Joined(chunks) == u
    ensures Reads(Completed, Start, chunks) == State(Last(u, KEEP), Served(u))
  {
    var m := |u| - (TRIM_OVER + 1);
    assert u == u[..m] + u[m..];
    chunks := LosingCut(u, u[..m], u[m..]);
  }

  lemma {:induction false} LosingCut(u: seq<byte>, p: seq<byte>, t: seq<byte>) returns (chunks: seq<seq<byte>>)
    requires u == p + t && Safe(u) && SinceToken(u) >= |t| > TRIM_OVER && |t| <= READ_MAX
    ensures Readable(chunks) && Joined(chunks) == u
    ensures Reads(Completed, Start, chunks) == State(Last(u, KEEP), Served(u))
  {
    SafePrefix(p, t);
    var singles := Singles(p);
    JoinedSingles(p);
    SafeReads(singles);
    chunks := singles + [t];
    LastRead(u, p, singles, t);
  }

  lemma {:induction false} LastRead(u: seq<byte>, p: seq<byte>, singles: seq<seq<byte>>, t: seq<byte>)
    requires u == p + t && Safe(u) && SinceToken(u) >= |t| > TRIM_OVER
    requires Joined(singles) == p && Faithful(p, Reads(Completed, Start, singles))
    ensures Joined(singles + [t]) == u && Reads(Completed, Start, singles + [t]) == State(Last(u, KEEP), Served(u))
  {
    OneMoreRead(Completed, Start, singles, t);
    TrimmingRead(u, p, Reads(Completed, Start, singles), t);
  }

  lemma {:induction false} OneMoreRead(rule: Rule, h: State, chunks: seq<seq<byte>>, c: seq<byte>)
    ensures Reads(rule, h, chunks + [c]) == Trimmed(Fed(rule, Reads(rule, h, chunks), c))
    ensures Joined(chunks + [c]) == Joined(chunks) + c
  {
    assert (chunks + [c])[..|chunks|] == chunks;
  }

  lemma {:induction false} TrimmingRead(u: seq<byte>, p: seq<byte>, h: State, t: seq<byte>)
    requires u == p + t && Faithful(p, h) && Safe(u) && SinceToken(u) >= |t| > TRIM_OVER
    ensures Trimmed(Fed(Completed, h, t)) == State(Last(u, KEEP), Served(u))
  {
    SinceConcat(p, t);
    FedQuietly(p, h, t, |t|);
    assert t[..|t|] == t;
    assert Last(h.buf + t, KEEP) == Last(u, KEEP);
  }

  lemma {:induction false} HeadLost(u: seq<byte>)
    requires !Kept(u)
    ensures Completed(Last(u, KEEP)) == None && Completed(u).Some? && SinceToken(u) > TRIM_OVER
  {
    CompletedByTail(u, Last(u, KEEP));
  }

  lemma {:induction false} ReadableMore(chunks: seq<seq<byte>>)
    requires Readable(chunks)
    ensures Readable(chunks + [[LF]])
  {
  }

  /** Some way of cutting an unsafe stream, within what one read may return, loses a command. */
  lemma {:induction false} UnsafeReads(s: seq<byte>) returns (chunks: seq<seq<byte>>)
    requires !Safe(s)
    ensures Readable(chunks) && Joined(chunks) == s && |Reads(Completed, Start, chunks).served| < |Served(s)|
  {
    var u, rest := FirstUnsafe(s);
    var upTo := LostAt(u);
    var tail := Singles(rest);
    JoinedSingles(rest);
    chunks := upTo + tail;
    JoinedConcat(upTo, tail);
    ReadsConcat(Completed, Start, upTo, tail);
    CompletedIsSuffixed();
    ReadsBehind(Completed, u + [LF], Reads(Completed, Start, upTo), tail, s);
  }

  lemma {:induction false} LostAt(u: seq<byte>) returns (chunks: seq<seq<byte>>)
    requires Safe(u) && !Kept(u)
    ensures Readable(chunks) && Joined(chunks) == u + [LF]
    ensures EndsWith(u + [LF], Reads(Completed, Start, chunks).buf)
    ensures |Reads(Completed, Start, chunks).served| < |Served(u + [LF])|
  {
    HeadLost(u);
    var head := LosingRead(u);
    ReadableMore(head);
    chunks := head + [[LF]];
    LossFollows(u, head);
  }

  lemma {:induction false} LossFollows(u: seq<byte>, head: seq<seq<byte>>)
    requires Joined(head) == u && Reads(Completed, Start, head) == State(Last(u, KEEP), Served(u))
    requires Completed(Last(u, KEEP)) == None && Completed(u).Some?
    ensures Joined(head + [[LF]]) == u + [LF]
    ensures EndsWith(u + [LF], Reads(Completed, Start, head + [[LF]]).buf)
    ensures |Reads(Completed, Start, head + [[LF]]).served| < |Served(u + [LF])|
  {
    OneMoreRead(Completed, Start, head, [LF]);
    AfterTheLoss(u);
    OneMoreByte(u, LF);
  }

  lemma {:induction false} AfterTheLoss(u: seq<byte>)
    requires Completed(Last(u, KEEP)) == None
    ensures var h := State(Last(u, KEEP), Served(u));
            Trimmed(Fed(Completed, h, [LF])) == State(Last(u, KEEP) + [LF], Served(u)) && EndsWith(u + [LF], Last(u, KEEP) + [LF])
  {
    var h := State(Last(u, KEEP), Served(u));
    assert [LF][..0] == [];
    assert Fed(Completed, h, [LF]) == Byte(Completed, h, LF);
    TailExtends(u, Last(u, KEEP), LF);
  }

  /** What is served is independent of the read boundaries exactly for the safe streams. */
  lemma {:induction false} ReadBoundariesExact(s: seq<byte>)
    ensures Safe(s) <==> forall chunks: seq<seq<byte>> :: Readable(chunks) && Joined(chunks) == s ==> Reads(Completed, Start, chunks).served == Served(s)
  {
    if Safe(s) {
      forall chunks | Readable(chunks) && Joined(chunks) == s ensures Reads(Completed, Start, chunks).served == Served(s) {
        SafeReads(chunks);
      }
    } else {
      var chunks := UnsafeReads(s);
      assert Reads(Completed, Start, chunks).served != Served(s);
    }
  }
  // ---- a stream that is not safe ----

  lemma {:induction false} NoNewline(u: seq<byte>)
    requires LF !in u
    ensures SinceToken(u) == |u| && Served(u) == []
  {
    if u != [] {
      assert u[|u| - 1] in u;
      NoNewline(u[..|u| - 1]);
    }
  }

  lemma {:induction false} DigitsAfter(t: seq<byte>, digits: seq<byte>)
    requires AllDigits(digits) && t != [] && !IsDigit(t[|t| - 1])
    ensures Digits(t + digits) == |digits|
  {
    if digits == [] {
      assert t + digits == t;
    } else {
      DigitsAfter(t, digits[..|digits| - 1]);
      assert (t + digits)[..|t + digits| - 1] == t + digits[..|digits| - 1];
    }
  }

  /** A command too long for what a trim keeps, so far from the last token that a trim may come. */
  function LongCommand(filler: seq<byte>, digits: seq<byte>): seq<byte> {
    filler + STREAM + digits + [LF]
  }

  lemma {:induction false} LongCommandIsUnsafe(filler: seq<byte>, digits: seq<byte>)
    requires LF !in filler && AllDigits(digits) && |digits| > KEEP - |STREAM| && |filler + STREAM + digits| > TRIM_OVER
    ensures !Safe(LongCommand(filler, digits)) && Served(LongCommand(filler, digits)) == [Pages(Decimal(digits))]
  {
    var u := filler + STREAM + digits;
    CommandCompletes(filler, digits);
    NoNewline(u);
    OneMoreByte(u, LF);
  }

  lemma {:induction false} CommandCompletes(filler: seq<byte>, digits: seq<byte>)
    requires LF !in filler && AllDigits(digits) && digits != []
    ensures var u := filler + STREAM + digits;
            LF !in u && Digits(u) == |digits| && Completed(u) == Some(Pages(Decimal(digits)))
  {
    var t := filler + STREAM;
    var u := t + digits;
    assert t[|t| - 1] == STREAM[6] && t[|t| - |STREAM|..] == STREAM;
    DigitsAfter(t, digits);
    assert u[..|u| - |digits|] == t && u[|u| - |digits|..] == digits;
    Endings(u);
  }

  const FILLER: seq<byte> := seq(TRIM_OVER, i => 0x2e)
  const ONES: seq<byte> := seq(26, i => 0x31)

  /** 8192 dots and a command of 26 digits: one page run is asked for, and some cut serves nothing. */
  lemma {:induction false} ALostCommand() returns (chunks: seq<seq<byte>>)
    ensures Served(LongCommand(FILLER, ONES)) == [Pages(Decimal(ONES))]
    ensures Readable(chunks) && Joined(chunks) == LongCommand(FILLER, ONES) && Reads(Completed, Start, chunks).served == []
  {
    LongCommandIsUnsafe(FILLER, ONES);
    chunks := UnsafeReads(LongCommand(FILLER, ONES));
  }
}
