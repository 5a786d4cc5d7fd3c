/**
 Protocol frames as the two ends exchange them, after framing and CRC: a frame
 either arrives whole or not at all. The byte codec is not part of this model.
 */
module Frames {
  import opened Wrappers
  import opened Sequences

  const PAGE: nat := 4096

  type Page = p: seq<bv8> | |p| == PAGE witness seq(PAGE, _ => 0)

  datatype Frame =
    | ReadReq(page: nat)
    | ReadResp(page: nat, data: Page)
    | WriteReq(page: nat, data: Page)
    | WriteAck(page: nat)
    | ConOut(bytes: seq<bv8>)
    | ConIn(bytes: seq<bv8>)
    | Err(code: nat, page: nat)

  const TY_READ_REQ := 1
  const TY_READ_RESP := 2
  const TY_WRITE_REQ := 3
  const TY_WRITE_ACK := 4
  const TY_CON_OUT := 5
  const TY_CON_IN := 6
  const TY_ERR := 7

  function TypeByte(f: Frame): nat {
    match f
    case ReadReq(_) => TY_READ_REQ
    case ReadResp(_, _) => TY_READ_RESP
    case WriteReq(_, _) => TY_WRITE_REQ
    case WriteAck(_) => TY_WRITE_ACK
    case ConOut(_) => TY_CON_OUT
    case ConIn(_) => TY_CON_IN
    case Err(_, _) => TY_ERR
  }

  /** The page number a frame is about, for the kinds that have one. */
  function FramePage(f: Frame): Option<nat> {
    match f
    case ConOut(_) => None
    case ConIn(_) => None
    case _ => Some(f.page)
  }

  predicate IsConsole(f: Frame) {
    f.ConOut? || f.ConIn?
  }

  predicate IsRequest(f: Frame) {
    f.ReadReq? || f.WriteReq?
  }

  /** The three kinds a host sends back. */
  predicate IsResponse(f: Frame) {
    f.ReadResp? || f.WriteAck? || f.Err?
  }

  /** The frames of one type, in order. */
  function OfType(fs: seq<Frame>, ty: nat): seq<Frame> {
    if fs == [] then [] else (if TypeByte(fs[0]) == ty then [fs[0]] else []) + OfType(fs[1..], ty)
  }

  /** Everything but the frames of one type, in order. */
  function NotOfType(fs: seq<Frame>, ty: nat): (r: seq<Frame>)
    ensures |r| <= |fs|
  {
    if fs == [] then [] else (if TypeByte(fs[0]) != ty then [fs[0]] else []) + NotOfType(fs[1..], ty)
  }

  lemma {:induction false} OfTypeMembers(fs: seq<Frame>, ty: nat)
    ensures forall f :: f in OfType(fs, ty) <==> f in fs && TypeByte(f) == ty
    ensures forall f :: f in NotOfType(fs, ty) <==> f in fs && TypeByte(f) != ty
  {
    if fs != [] {
      OfTypeMembers(fs[1..], ty);
      assert fs == [fs[0]] + fs[1..];
    }
  }

  /** The frames a mux holds for its callers: all but the console ones. */
  function PageFrames(fs: seq<Frame>): seq<Frame> {
    if fs == [] then [] else (if IsConsole(fs[0]) then [] else [fs[0]]) + PageFrames(fs[1..])
  }

  /** The console payload carried by a delivery, in order. */
  function ConsoleBytes(fs: seq<Frame>): seq<bv8> {
    if fs == [] then []
    else (if IsConsole(fs[0]) then fs[0].bytes else []) + ConsoleBytes(fs[1..])
  }

  /** A held queue with every response type purged. */
  function Purged(fs: seq<Frame>): seq<Frame> {
    NotOfType(NotOfType(NotOfType(fs, TY_READ_RESP), TY_WRITE_ACK), TY_ERR)
  }

  /** Where the first frame of a type sits; the length when there is none. */
  function FirstIndex(fs: seq<Frame>, ty: nat): (i: nat)
    ensures i <= |fs|
    ensures i < |fs| ==> TypeByte(fs[i]) == ty
    ensures forall j :: 0 <= j < i ==> TypeByte(fs[j]) != ty
  {
    if fs == [] || TypeByte(fs[0]) == ty then 0 else 1 + FirstIndex(fs[1..], ty)
  }

  predicate Holds(fs: seq<Frame>, ty: nat) {
    FirstIndex(fs, ty) < |fs|
  }

  function First(fs: seq<Frame>, ty: nat): Frame
    requires Holds(fs, ty)
  {
    fs[FirstIndex(fs, ty)]
  }

  function WithoutFirst(fs: seq<Frame>, ty: nat): (r: seq<Frame>)
    requires Holds(fs, ty)
    ensures |r| == |fs| - 1
    ensures forall f :: f in r ==> f in fs
  {
    fs[..FirstIndex(fs, ty)] + fs[FirstIndex(fs, ty) + 1..]
  }

  lemma {:induction false} FirstBehind(fs: seq<Frame>, ty: nat)
    requires Holds(fs, ty) && TypeByte(fs[0]) != ty
    ensures Holds(fs[1..], ty) && First(fs, ty) == First(fs[1..], ty)
    ensures WithoutFirst(fs, ty) == [fs[0]] + WithoutFirst(fs[1..], ty)
    ensures OfType(WithoutFirst(fs, ty), ty) == OfType(WithoutFirst(fs[1..], ty), ty)
  {
    var rest := WithoutFirst(fs[1..], ty);
    assert WithoutFirst(fs, ty) == [fs[0]] + rest;
    assert ([fs[0]] + rest)[1..] == rest;
  }

  lemma {:induction false} FirstOfType(fs: seq<Frame>, ty: nat)
    ensures Holds(fs, ty) <==> OfType(fs, ty) != []
    ensures Holds(fs, ty) ==> OfType(fs, ty) == [First(fs, ty)] + OfType(WithoutFirst(fs, ty), ty)
  {
    if fs != [] {
      if TypeByte(fs[0]) == ty {
        assert WithoutFirst(fs, ty) == fs[1..];
      } else {
        FirstOfType(fs[1..], ty);
        if Holds(fs, ty) {
          FirstBehind(fs, ty);
        }
      }
    }
  }

  /** Removing the first frame of one type leaves the other types, and the rest, as they were. */
  lemma {:induction false} WithoutFirstOthers(fs: seq<Frame>, ty: nat, other: nat)
    requires Holds(fs, ty) && other != ty
    ensures OfType(WithoutFirst(fs, ty), other) == OfType(fs, other)
    ensures NotOfType(WithoutFirst(fs, ty), ty) == NotOfType(fs, ty)
  {
    if TypeByte(fs[0]) == ty {
      assert WithoutFirst(fs, ty) == fs[1..];
    } else {
      WithoutFirstOthers(fs[1..], ty, other);
      assert WithoutFirst(fs, ty) == [fs[0]] + WithoutFirst(fs[1..], ty);
    }
  }

  lemma {:induction false} OfTypeConcat(a: seq<Frame>, b: seq<Frame>, ty: nat)
    ensures OfType(a + b, ty) == OfType(a, ty) + OfType(b, ty)
  {
    if a == [] {
      assert a + b == b;
    } else {
      OfTypeConcat(a[1..], b, ty);
      ConcatHead(a, b);
      Reassociate(if TypeByte(a[0]) == ty then [a[0]] else [], OfType(a[1..], ty), OfType(b, ty));
    }
  }

  lemma {:induction false} NotOfTypeConcat(a: seq<Frame>, b: seq<Frame>, ty: nat)
    ensures NotOfType(a + b, ty) == NotOfType(a, ty) + NotOfType(b, ty)
  {
    if a == [] {
      assert a + b == b;
    } else {
      NotOfTypeConcat(a[1..], b, ty);
      ConcatHead(a, b);
      Reassociate(if TypeByte(a[0]) != ty then [a[0]] else [], NotOfType(a[1..], ty), NotOfType(b, ty));
    }
  }

  lemma {:induction false} PageFramesConcat(a: seq<Frame>, b: seq<Frame>)
    ensures PageFrames(a + b) == PageFrames(a) + PageFrames(b)
  {
    if a == [] {
      assert a + b == b;
    } else {
      PageFramesConcat(a[1..], b);
      ConcatHead(a, b);
      Reassociate(if IsConsole(a[0]) then [] else [a[0]], PageFrames(a[1..]), PageFrames(b));
    }
  }

  lemma {:induction false} PageFramesOfType(fs: seq<Frame>, ty: nat)
    requires ty != TY_CON_OUT && ty != TY_CON_IN
    ensures OfType(PageFrames(fs), ty) == OfType(fs, ty)
  {
    if fs != [] {
      PageFramesOfType(fs[1..], ty);
      OfTypeConcat(if IsConsole(fs[0]) then [] else [fs[0]], PageFrames(fs[1..]), ty);
    }
  }

  lemma {:induction false} PageFramesMembers(fs: seq<Frame>)
    ensures forall f :: f in PageFrames(fs) <==> f in fs && !IsConsole(f)
  {
    if fs != [] {
      PageFramesMembers(fs[1..]);
      assert fs == [fs[0]] + fs[1..];
    }
  }

  lemma {:induction false} PurgedMembers(fs: seq<Frame>)
    ensures forall f :: f in Purged(fs) <==> f in fs && !IsResponse(f)
  {
    OfTypeMembers(fs, TY_READ_RESP);
    OfTypeMembers(NotOfType(fs, TY_READ_RESP), TY_WRITE_ACK);
    OfTypeMembers(NotOfType(NotOfType(fs, TY_READ_RESP), TY_WRITE_ACK), TY_ERR);
  }

  lemma {:induction false} ConsoleBytesConcat(a: seq<Frame>, b: seq<Frame>)
    ensures ConsoleBytes(a + b) == ConsoleBytes(a) + ConsoleBytes(b)
  {
    if a == [] {
      assert a + b == b;
    } else {
      ConsoleBytesConcat(a[1..], b);
      ConcatHead(a, b);
      Reassociate(if IsConsole(a[0]) then a[0].bytes else [], ConsoleBytes(a[1..]), ConsoleBytes(b));
    }
  }
  /** Each console frame adds its payload at its place, and no other frame adds anything. */
  lemma {:induction false} PayloadInPlace(before: seq<Frame>, f: Frame, after: seq<Frame>)
    ensures ConsoleBytes(before + [f] + after) == ConsoleBytes(before) + (if f.ConIn? || f.ConOut? then f.bytes else []) + ConsoleBytes(after)
    ensures PageFrames(before + [f] + after) == PageFrames(before) + (if f.ConIn? || f.ConOut? then [] else [f]) + PageFrames(after)
  {
    assert [f][1..] == [];
    ConsoleBytesConcat(before + [f], after);
    ConsoleBytesConcat(before, [f]);
    PageFramesConcat(before + [f], after);
    PageFramesConcat(before, [f]);
  }
}
