/** Reading a flattened device tree, and overwriting one of its property values in place. */
module DeviceTree {
  import opened Bytes
  import opened Wrappers

  const FDT_BEGIN_NODE: nat := 1
  const FDT_END_NODE: nat := 2
  const FDT_PROP: nat := 3
  const FDT_NOP: nat := 4
  const FDT_MAGIC: nat := 0xd00d_feed

  datatype Range = Range(start: nat, end: nat)

  function BE32(b: seq<byte>, off: nat): (v: Option<nat>)
    ensures v.None? <==> off + 4 > |b|
  {
    if off + 4 <= |b| then Some(FromBE(b[off..off + 4])) else None
  }

  /** Where a NUL-terminated string that starts at `at` ends. */
  function Nul(b: seq<byte>, at: nat): (end: Option<nat>)
    ensures end.Some? ==> at <= end.value < |b| && b[end.value] == 0
    decreases |b| - at
  {
    if at >= |b| then None else if b[at] == 0 then Some(at) else Nul(b, at + 1)
  }

  function Align4(n: nat): (r: nat)
    ensures n <= r < n + 4 && r % 4 == 0
  {
    (n + 3) / 4 * 4
  }

  // ---- UTF-8 well-formedness, as in table 3-7 of the Unicode standard ----

  predicate Follow(b: byte) { 0x80 <= b <= 0xbf }

  /** The length of the well-formed sequence at the front; 0 when there is none. */
  function CharLen(s: seq<byte>): (n: nat)
    ensures n <= |s|
  {
    if s == [] then 0
    else if s[0] < 0x80 then 1
    else if |s| >= 2 && 0xc2 <= s[0] <= 0xdf && Follow(s[1]) then 2
    else if |s| >= 3 && 0xe0 <= s[0] <= 0xef && Follow(s[2]) && Second3(s[0], s[1]) then 3
    else if |s| >= 4 && 0xf0 <= s[0] <= 0xf4 && Follow(s[2]) && Follow(s[3]) && Second4(s[0], s[1]) then 4
    else 0
  }

  predicate Second3(lead: byte, b: byte) {
    Follow(b) && (lead == 0xe0 ==> 0xa0 <= b) && (lead == 0xed ==> b <= 0x9f)
  }

  predicate Second4(lead: byte, b: byte) {
    Follow(b) && (lead == 0xf0 ==> 0x90 <= b) && (lead == 0xf4 ==> b <= 0x8f)
  }

  predicate Utf8(s: seq<byte>) {
    s == [] || (CharLen(s) > 0 && Utf8(s[CharLen(s)..]))
  }

  // ---- the token stream ----

  /** Where the header says the blocks are. */
  datatype Header = Header(offStruct: nat, offStrings: nat, sizeStruct: nat)

  function HeaderOf(blob: seq<byte>): (h: Option<Header>)
    ensures h.Some? ==> h.value.offStruct + h.value.sizeStruct <= |blob| && |blob| >= 40
  {
    if BE32(blob, 0) != Some(FDT_MAGIC) || |blob| < 40 then None
    else
      var h := Header(BE32(blob, 8).value, BE32(blob, 12).value, BE32(blob, 36).value);
      if h.offStruct + h.sizeStruct <= |blob| then Some(h) else None
  }

  datatype Item =
    | Node(name: seq<byte>, next: nat)
    | NodeEnd(next: nat)
    | Prop(name: seq<byte>, value: Range, next: nat)
    | Skip(next: nat)
    | Stop

  ghost predicate Framed(blob: seq<byte>, h: Header) {
    h.offStruct + h.sizeStruct <= |blob|
  }

  /** The item at position `i` of the struct block; everything malformed stops the walk. */
  function ItemAt(blob: seq<byte>, h: Header, i: nat): (t: Item)
    requires Framed(blob, h)
    ensures t != Stop ==> i + 4 <= t.next
    ensures t.Prop? ==> t.value.start == h.offStruct + i + 12 && t.value.start <= t.value.end <= |blob| && t.value.end <= h.offStruct + t.next
  {
    var s := blob[h.offStruct..h.offStruct + h.sizeStruct];
    if i + 4 > |s| then Stop
    else
      var token := BE32(s, i).value;
      if token == FDT_BEGIN_NODE then
        var end := Nul(s, i + 4);
        if end.None? || !Utf8(s[i + 4..end.value]) then Stop
        else Node(s[i + 4..end.value], Align4(end.value + 1))
      else if token == FDT_END_NODE then NodeEnd(i + 4)
      else if token == FDT_PROP then
        if i + 12 > |s| then Stop
        else PropAt(blob, h, i, BE32(s, i + 4).value, h.offStrings + BE32(s, i + 8).value)
      else if token == FDT_NOP then Skip(i + 4)
      else Stop
  }

  function PropAt(blob: seq<byte>, h: Header, i: nat, len: nat, nameoff: nat): (t: Item)
    ensures t == Stop || t.Prop?
    ensures t.Prop? ==> t.value == Range(h.offStruct + i + 12, h.offStruct + i + 12 + len) && t.value.end <= |blob| && t.next == Align4(i + 12 + len)
  {
    var value := Range(h.offStruct + i + 12, h.offStruct + i + 12 + len);
    var end := Nul(blob, nameoff);
    if value.end > |blob| || end.None? || !Utf8(blob[nameoff..end.value]) then Stop
    else Prop(blob[nameoff..end.value], value, Align4(i + 12 + len))
  }

  // ---- lookup ----

  /** The names below the root, joined by slashes; at the root there is no path. */
  function Joined(names: seq<seq<byte>>): seq<byte> {
    if names == [] then [] else if |names| == 1 then names[0] else Joined(names[..|names| - 1]) + [0x2f] + names[|names| - 1]
  }

  predicate IsPath(stack: seq<seq<byte>>, path: seq<byte>) {
    |stack| > 1 && [0x2f] + Joined(stack[1..]) == path
  }

  function Popped(stack: seq<seq<byte>>): seq<seq<byte>> {
    if stack == [] then [] else stack[..|stack| - 1]
  }

  /** The first property of this name on this node, walking on from `i`. */
  function Walk(blob: seq<byte>, h: Header, i: nat, stack: seq<seq<byte>>, path: seq<byte>, name: seq<byte>): (r: Option<Range>)
    requires Framed(blob, h)
    ensures r.Some? ==> h.offStruct + i + 12 <= r.value.start <= r.value.end <= |blob|
    decreases if i <= h.sizeStruct then h.sizeStruct - i + 1 else 0
  {
    match ItemAt(blob, h, i)
    case Node(n, next) => Walk(blob, h, next, stack + [n], path, name)
    case NodeEnd(next) => Walk(blob, h, next, Popped(stack), path, name)
    case Prop(n, value, next) => if n == name && IsPath(stack, path) then Some(value) else Walk(blob, h, next, stack, path, name)
    case Skip(next) => Walk(blob, h, next, stack, path, name)
    case Stop => None
  }

  function Lookup(blob: seq<byte>, path: seq<byte>, name: seq<byte>): (r: Option<Range>)
    ensures r.Some? ==> 12 <= r.value.start <= r.value.end <= |blob|
  {
    var h := HeaderOf(blob);
    if h.None? then None else Walk(blob, h.value, 0, [], path, name)
  }

  /** The property's value, when there is one. */
  function Value(blob: seq<byte>, path: seq<byte>, name: seq<byte>): Option<seq<byte>> {
    var r := Lookup(blob, path, name);
    if r.None? then None else Some(blob[r.value.start..r.value.end])
  }

  method PropRange(blob: seq<byte>, path: seq<byte>, name: seq<byte>) returns (r: Option<Range>)
    ensures r == Lookup(blob, path, name)
  {
    var magic := BE32(blob, 0);
    if magic != Some(FDT_MAGIC) || |blob| < 40 {
      return None;
    }
    var h := Header(BE32(blob, 8).value, BE32(blob, 12).value, BE32(blob, 36).value);
    if h.offStruct + h.sizeStruct > |blob| {
      return None;
    }
    var stack: seq<seq<byte>> := [];
    var i := 0;
    while i + 4 <= h.sizeStruct
      invariant Lookup(blob, path, name) == Walk(blob, h, i, stack, path, name)
      decreases h.sizeStruct - i
    {
      match ItemAt(blob, h, i) {
        case Node(n, next) =>
          stack, i := stack + [n], next;
        case NodeEnd(next) =>
          stack, i := Popped(stack), next;
        case Prop(n, value, next) =>
          if n == name && IsPath(stack, path) {
            return Some(value);
          }
          i := next;
        case Skip(next) => i := next;
        case Stop => return None;
      }
    }
    return None;
  }

  datatype SetError = NoSuchProperty | NotTwoCells(len: nat)

  /** Overwrites an existing eight-byte value. */
  method SetU64(blob: array<byte>, path: seq<byte>, name: seq<byte>, value: nat) returns (r: Result<(), SetError>)
    modifies blob
    ensures match Lookup(old(blob[..]), path, name)
            case None => r == Error(NoSuchProperty) && blob[..] == old(blob[..])
            case Some(at) =>
              if at.end - at.start != 8 then r == Error(NotTwoCells(at.end - at.start)) && blob[..] == old(blob[..])
              else r == Ok(()) && blob[..] == Patched(old(blob[..]), at, ToBE(value, 8))
  {
    var range := PropRange(blob[..], path, name);
    if range.None? {
      return Error(NoSuchProperty);
    }
    var at := range.value;
    if at.end - at.start != 8 {
      return Error(NotTwoCells(at.end - at.start));
    }
    var bytes := ToBE(value, 8);
    ghost var before := blob[..];
    forall k | 0 <= k < 8 {
      blob[at.start + k] := bytes[k];
    }
    ghost var patched := Patched(before, at, bytes);
    forall k | 0 <= k < blob.Length ensures blob[k] == patched[k] {
      if at.start <= k < at.end {
        assert patched[k] == patched[at.start..at.end][k - at.start];
      }
    }
    assert blob[..] == patched;
    return Ok(());
  }

  function Patched(blob: seq<byte>, at: Range, bytes: seq<byte>): (r: seq<byte>)
    requires at.start <= at.end <= |blob| && |bytes| == at.end - at.start
    ensures |r| == |blob| && r[at.start..at.end] == bytes
    ensures forall k :: 0 <= k < |blob| && !(at.start <= k < at.end) ==> r[k] == blob[k]
  {
    blob[..at.start] + bytes + blob[at.end..]
  }

  // ---- what patching leaves alone ----

  ghost predicate Agree(a: seq<byte>, b: seq<byte>, r: Range) {
    |a| == |b| && forall k :: 0 <= k < |a| && !(r.start <= k < r.end) ==> a[k] == b[k]
  }

  /** A string that ends before `hi`, or a scan with nothing changed above `at`, is found alike. */
  lemma {:induction false} NulAgrees(a: seq<byte>, b: seq<byte>, at: nat, hi: nat)
    requires |a| == |b| && hi <= |a| && forall k :: at <= k < hi ==> a[k] == b[k]
    requires hi == |a| || (Nul(a, at).Some? && Nul(a, at).value < hi)
    ensures Nul(a, at) == Nul(b, at)
    ensures Nul(a, at).Some? ==> a[at..Nul(a, at).value] == b[at..Nul(a, at).value]
    decreases |a| - at
  {
    if at < |a| && a[at] != 0 {
      NulAgrees(a, b, at + 1, hi);
      var end := Nul(a, at);
      if end.Some? {
        assert a[at..end.value] == [a[at]] + a[at + 1..end.value];
        assert b[at..end.value] == [b[at]] + b[at + 1..end.value];
      }
    }
  }

  /** Where the part of an item that the walk reads ends. */
  function ReadTo(t: Item, i: nat): nat {
    match t
    case Node(name, _) => i + 4 + |name| + 1
    case NodeEnd(_) => i + 4
    case Prop(_, _, _) => i + 12
    case Skip(_) => i + 4
    case Stop => i
  }

  /** Everything a scan for a name from `nameoff` reads lies outside the range. */
  predicate NameOutside(blob: seq<byte>, nameoff: nat, r: Range) {
    r.end <= nameoff || (Nul(blob, nameoff).Some? && Nul(blob, nameoff).value < r.start)
  }

  /** Where the name of the property at `i` is, when there is a property. */
  function NameAt(blob: seq<byte>, h: Header, i: nat): Option<nat>
    requires Framed(blob, h)
  {
    var s := blob[h.offStruct..h.offStruct + h.sizeStruct];
    if i + 12 <= |s| && BE32(s, i) == Some(FDT_PROP) then Some(h.offStrings + BE32(s, i + 8).value) else None
  }

  /** No name that the walk from `i` reads meets the range. */
  predicate NamesOutside(blob: seq<byte>, h: Header, i: nat, r: Range)
    requires Framed(blob, h)
    decreases if i <= h.sizeStruct then h.sizeStruct - i + 1 else 0
  {
    && (NameAt(blob, h, i).Some? ==> NameOutside(blob, NameAt(blob, h, i).value, r))
    && (ItemAt(blob, h, i) != Stop ==> NamesOutside(blob, h, ItemAt(blob, h, i).next, r))
  }

  /** What the walk reads at `i`, but for a name, lies outside the range. */
  ghost predicate TokenOutside(blob: seq<byte>, h: Header, i: nat, r: Range)
    requires Framed(blob, h)
  {
    r.end <= h.offStruct + i || (ItemAt(blob, h, i) != Stop && h.offStruct + ReadTo(ItemAt(blob, h, i), i) <= r.start)
  }

  ghost predicate TokensOutside(blob: seq<byte>, h: Header, i: nat, r: Range)
    requires Framed(blob, h)
    decreases if i <= h.sizeStruct then h.sizeStruct - i + 1 else 0
  {
    && TokenOutside(blob, h, i, r)
    && (ItemAt(blob, h, i) != Stop ==> TokensOutside(blob, h, ItemAt(blob, h, i).next, r))
  }

  /** An item read wholly outside the patch is read alike in both blobs. */
  lemma {:induction false} ItemAgrees(a: seq<byte>, b: seq<byte>, h: Header, r: Range, i: nat)
    requires Framed(a, h) && Agree(a, b, r) && TokenOutside(a, h, i, r)
    requires NameAt(a, h, i).Some? ==> NameOutside(a, NameAt(a, h, i).value, r)
    ensures ItemAt(b, h, i) == ItemAt(a, h, i)
  {
    if i + 4 <= h.sizeStruct {
      WordAgrees(a, b, h, r, i);
      var token := BE32(a[h.offStruct..h.offStruct + h.sizeStruct], i).value;
      if token == FDT_BEGIN_NODE {
        NodeAgrees(a, b, h, r, i);
      } else if token == FDT_PROP {
        PropItemAgrees(a, b, h, r, i);
      }
    }
  }

  lemma {:induction false} PropItemAgrees(a: seq<byte>, b: seq<byte>, h: Header, r: Range, i: nat)
    requires Framed(a, h) && Agree(a, b, r) && i + 4 <= h.sizeStruct
    requires r.end <= h.offStruct + i || h.offStruct + i + 12 <= r.start || i + 12 > h.sizeStruct
    requires BE32(a[h.offStruct..h.offStruct + h.sizeStruct], i) == BE32(b[h.offStruct..h.offStruct + h.sizeStruct], i) == Some(FDT_PROP)
    requires NameAt(a, h, i).Some? ==> NameOutside(a, NameAt(a, h, i).value, r)
    ensures ItemAt(b, h, i) == ItemAt(a, h, i)
  {
    if i + 12 <= h.sizeStruct {
      WordAgrees(a, b, h, r, i + 4);
      WordAgrees(a, b, h, r, i + 8);
      var s := a[h.offStruct..h.offStruct + h.sizeStruct];
      var len, nameoff := BE32(s, i + 4).value, h.offStrings + BE32(s, i + 8).value;
      PropItem(a, h, i, len, nameoff);
      PropItem(b, h, i, len, nameoff);
      PropAgrees(a, b, h, r, i, len, nameoff);
    }
  }

  lemma {:induction false} PropAgrees(a: seq<byte>, b: seq<byte>, h: Header, r: Range, i: nat, len: nat, nameoff: nat)
    requires Agree(a, b, r) && NameOutside(a, nameoff, r)
    ensures PropAt(a, h, i, len, nameoff) == PropAt(b, h, i, len, nameoff)
  {
    NameAgrees(a, b, r, nameoff);
  }

  lemma {:induction false} PropItem(blob: seq<byte>, h: Header, i: nat, len: nat, nameoff: nat)
    requires Framed(blob, h) && i + 12 <= h.sizeStruct && nameoff >= h.offStrings
    requires var s := blob[h.offStruct..h.offStruct + h.sizeStruct];
             BE32(s, i) == Some(FDT_PROP) && BE32(s, i + 4) == Some(len) && BE32(s, i + 8) == Some(nameoff - h.offStrings)
    ensures ItemAt(blob, h, i) == PropAt(blob, h, i, len, nameoff)
  {
  }

  lemma {:induction false} WordAgrees(a: seq<byte>, b: seq<byte>, h: Header, r: Range, i: nat)
    requires Framed(a, h) && Agree(a, b, r) && i + 4 <= h.sizeStruct
    requires r.end <= h.offStruct + i || h.offStruct + i + 4 <= r.start
    ensures BE32(a[h.offStruct..h.offStruct + h.sizeStruct], i) == BE32(b[h.offStruct..h.offStruct + h.sizeStruct], i)
  {
    var s, t := a[h.offStruct..h.offStruct + h.sizeStruct], b[h.offStruct..h.offStruct + h.sizeStruct];
    forall k | i <= k < i + 4 ensures s[k] == t[k] {
      assert s[k] == a[h.offStruct + k] && t[k] == b[h.offStruct + k];
    }
    assert s[i..i + 4] == t[i..i + 4];
  }

  lemma {:induction false} NodeAgrees(a: seq<byte>, b: seq<byte>, h: Header, r: Range, i: nat)
    requires Framed(a, h) && Agree(a, b, r) && i + 4 <= h.sizeStruct
    requires var s := a[h.offStruct..h.offStruct + h.sizeStruct];
             r.end <= h.offStruct + i || (Nul(s, i + 4).Some? && h.offStruct + Nul(s, i + 4).value < r.start)
    ensures var s, t := a[h.offStruct..h.offStruct + h.sizeStruct], b[h.offStruct..h.offStruct + h.sizeStruct];
            Nul(s, i + 4) == Nul(t, i + 4) && (Nul(s, i + 4).Some? ==> s[i + 4..Nul(s, i + 4).value] == t[i + 4..Nul(s, i + 4).value])
  {
    var s, t := a[h.offStruct..h.offStruct + h.sizeStruct], b[h.offStruct..h.offStruct + h.sizeStruct];
    NulAgrees(s, t, i + 4, if r.end <= h.offStruct + i || h.offStruct + |s| <= r.start then |s| else r.start - h.offStruct);
  }

  lemma {:induction false} NameAgrees(a: seq<byte>, b: seq<byte>, r: Range, nameoff: nat)
    requires Agree(a, b, r) && NameOutside(a, nameoff, r)
    ensures Nul(a, nameoff) == Nul(b, nameoff)
    ensures Nul(a, nameoff).Some? ==> a[nameoff..Nul(a, nameoff).value] == b[nameoff..Nul(a, nameoff).value]
  {
    NulAgrees(a, b, nameoff, if r.end <= nameoff then |a| else if r.start <= |a| then r.start else |a|);
  }

  lemma {:induction false} NameAtAgrees(a: seq<byte>, b: seq<byte>, h: Header, r: Range, i: nat)
    requires Framed(a, h) && Agree(a, b, r) && TokenOutside(a, h, i, r)
    ensures NameAt(b, h, i) == NameAt(a, h, i)
  {
    if i + 12 <= h.sizeStruct {
      WordAgrees(a, b, h, r, i);
      if BE32(a[h.offStruct..h.offStruct + h.sizeStruct], i) == Some(FDT_PROP) {
        WordAgrees(a, b, h, r, i + 8);
      }
    } else if i + 4 <= h.sizeStruct {
      WordAgrees(a, b, h, r, i);
    }
  }

  /** A walk that reads nothing of the patch goes as before. */
  lemma {:induction false} WalkAgrees(a: seq<byte>, b: seq<byte>, h: Header, r: Range, i: nat, stack: seq<seq<byte>>, path: seq<byte>, name: seq<byte>)
    requires Framed(a, h) && Agree(a, b, r) && TokensOutside(a, h, i, r) && NamesOutside(a, h, i, r)
    ensures Walk(b, h, i, stack, path, name) == Walk(a, h, i, stack, path, name)
    decreases if i <= h.sizeStruct then h.sizeStruct - i + 1 else 0
  {
    ItemAgrees(a, b, h, r, i);
    match ItemAt(a, h, i) {
      case Node(n, next) => WalkAgrees(a, b, h, r, next, stack + [n], path, name);
      case NodeEnd(next) => WalkAgrees(a, b, h, r, next, Popped(stack), path, name);
      case Prop(_, _, next) => WalkAgrees(a, b, h, r, next, stack, path, name);
      case Skip(next) => WalkAgrees(a, b, h, r, next, stack, path, name);
      case Stop =>
    }
  }

  /** And the names it reads are as clear of any other range as they were. */
  lemma {:induction false} NamesAgree(a: seq<byte>, b: seq<byte>, h: Header, r: Range, i: nat, q: Range)
    requires Framed(a, h) && Agree(a, b, r) && TokensOutside(a, h, i, r) && NamesOutside(a, h, i, r) && NamesOutside(a, h, i, q)
    ensures NamesOutside(b, h, i, q)
    decreases if i <= h.sizeStruct then h.sizeStruct - i + 1 else 0
  {
    ItemAgrees(a, b, h, r, i);
    NameAtAgrees(a, b, h, r, i);
    if NameAt(a, h, i).Some? {
      NameAgrees(a, b, r, NameAt(a, h, i).value);
    }
    if ItemAt(a, h, i) != Stop {
      NamesAgree(a, b, h, r, ItemAt(a, h, i).next, q);
    }
  }

  lemma {:induction false} BehindTokens(blob: seq<byte>, h: Header, r: Range, i: nat)
    requires Framed(blob, h) && r.end <= h.offStruct + i
    ensures TokensOutside(blob, h, i, r)
    decreases if i <= h.sizeStruct then h.sizeStruct - i + 1 else 0
  {
    if ItemAt(blob, h, i) != Stop {
      BehindTokens(blob, h, r, ItemAt(blob, h, i).next);
    }
  }

  /** A walk that finds a range reads, but for names, nothing inside it; nor would it walking on. */
  lemma {:induction false} FoundUnread(blob: seq<byte>, h: Header, i: nat, stack: seq<seq<byte>>, path: seq<byte>, name: seq<byte>)
    requires Framed(blob, h) && Walk(blob, h, i, stack, path, name).Some?
    ensures TokensOutside(blob, h, i, Walk(blob, h, i, stack, path, name).value)
    decreases if i <= h.sizeStruct then h.sizeStruct - i + 1 else 0
  {
    match ItemAt(blob, h, i) {
      case Node(n, next) => FoundUnread(blob, h, next, stack + [n], path, name);
      case NodeEnd(next) => FoundUnread(blob, h, next, Popped(stack), path, name);
      case Prop(n, value, next) =>
        if n == name && IsPath(stack, path) {
          BehindTokens(blob, h, value, next);
        } else {
          FoundUnread(blob, h, next, stack, path, name);
        }
      case Skip(next) => FoundUnread(blob, h, next, stack, path, name);
    }
  }

  /** A lookup whose value may be overwritten: eight bytes, clear of the header and of every name the walk reads. */
  predicate Patchable(blob: seq<byte>, path: seq<byte>, name: seq<byte>) {
    && HeaderOf(blob).Some?
    && Lookup(blob, path, name).Some?
    && var r := Lookup(blob, path, name).value;
       r.end - r.start == 8 && 40 <= r.start && NamesOutside(blob, HeaderOf(blob).value, 0, r)
  }

  function Set(blob: seq<byte>, path: seq<byte>, name: seq<byte>, value: nat): seq<byte>
    requires Lookup(blob, path, name).Some? && Lookup(blob, path, name).value.end - Lookup(blob, path, name).value.start == 8
  {
    Patched(blob, Lookup(blob, path, name).value, ToBE(value, 8))
  }

  /** Every lookup finds the same range after a patch as before it. */
  lemma {:induction false} PatchKeepsLookups(blob: seq<byte>, path: seq<byte>, name: seq<byte>, value: nat, path': seq<byte>, name': seq<byte>)
    requires Patchable(blob, path, name)
    ensures Lookup(Set(blob, path, name, value), path', name') == Lookup(blob, path', name')
    ensures Patchable(blob, path', name') ==> Patchable(Set(blob, path, name, value), path', name')
  {
    var r, h := Lookup(blob, path, name).value, HeaderOf(blob).value;
    var patched := Set(blob, path, name, value);
    SameHeader(blob, patched, r);
    FoundUnread(blob, h, 0, [], path, name);
    WalkAgrees(blob, patched, h, r, 0, [], path', name');
    if Patchable(blob, path', name') {
      NamesAgree(blob, patched, h, r, 0, Lookup(blob, path', name').value);
    }
  }

  /** So every value outside the patch is unchanged, and the patched one is the number, most significant byte first. */
  lemma {:induction false} PatchFrame(blob: seq<byte>, path: seq<byte>, name: seq<byte>, value: nat, path': seq<byte>, name': seq<byte>)
    requires Patchable(blob, path, name) && value < Pow256(8)
    ensures var patched := Set(blob, path, name, value);
            && |patched| == |blob|
            && Value(patched, path, name) == Some(ToBE(value, 8)) && FromBE(ToBE(value, 8)) == value
            && (name' != name ==> Value(patched, path', name') == Value(blob, path', name'))
  {
    PatchKeepsLookups(blob, path, name, value, path', name');
    PatchKeepsLookups(blob, path, name, value, path, name);
    FromToBE(value, 8);
    if name' != name && Lookup(blob, path', name').Some? {
      WalkDisjoint(blob, HeaderOf(blob).value, 0, [], path, name, path', name');
      OutsidePatch(blob, Lookup(blob, path, name).value, ToBE(value, 8), Lookup(blob, path', name').value);
    }
  }

  /** The same for any lookup whose range does not meet the patch, whatever its name. */
  lemma {:induction false} PatchKeepsDisjoint(blob: seq<byte>, path: seq<byte>, name: seq<byte>, value: nat, path': seq<byte>, name': seq<byte>)
    requires Patchable(blob, path, name) && Lookup(blob, path', name').Some?
    requires Lookup(blob, path', name').value.end <= Lookup(blob, path, name).value.start || Lookup(blob, path, name).value.end <= Lookup(blob, path', name').value.start
    ensures Value(Set(blob, path, name, value), path', name') == Value(blob, path', name')
  {
    PatchKeepsLookups(blob, path, name, value, path', name');
    OutsidePatch(blob, Lookup(blob, path, name).value, ToBE(value, 8), Lookup(blob, path', name').value);
  }

  lemma {:induction false} OutsidePatch(blob: seq<byte>, r: Range, bytes: seq<byte>, q: Range)
    requires r.start <= r.end <= |blob| && |bytes| == r.end - r.start && q.start <= q.end <= |blob|
    requires q.end <= r.start || r.end <= q.start
    ensures Patched(blob, r, bytes)[q.start..q.end] == blob[q.start..q.end]
  {
  }

  lemma {:induction false} SameHeader(a: seq<byte>, b: seq<byte>, r: Range)
    requires Agree(a, b, r) && 40 <= r.start
    ensures HeaderOf(b) == HeaderOf(a)
  {
    if |a| >= 40 {
      assert a[0..4] == b[0..4] && a[8..12] == b[8..12] && a[12..16] == b[12..16] && a[36..40] == b[36..40];
    }
  }

  // ---- blobs whose blocks do not overlap ----

  function SizeStrings(blob: seq<byte>): nat
    requires |blob| >= 40
  {
    BE32(blob, 32).value
  }

  /** Every name the walk from `i` reads begins within the strings block. */
  predicate NamesBegin(blob: seq<byte>, h: Header, i: nat, size: nat)
    requires Framed(blob, h)
    decreases if i <= h.sizeStruct then h.sizeStruct - i + 1 else 0
  {
    && (NameAt(blob, h, i).Some? ==> NameAt(blob, h, i).value < h.offStrings + size)
    && (ItemAt(blob, h, i) != Stop ==> NamesBegin(blob, h, ItemAt(blob, h, i).next, size))
  }

  /** Header, struct block and strings block are clear of each other, in either order, and the names are in the strings block. */
  predicate Apart(blob: seq<byte>) {
    HeaderOf(blob).Some? &&
    var h, size := HeaderOf(blob).value, SizeStrings(blob);
    && 40 <= h.offStruct
    && (h.offStruct + h.sizeStruct <= h.offStrings || (h.offStrings + size <= h.offStruct && NamesBegin(blob, h, 0, size)))
  }

  lemma {:induction false} NulBefore(b: seq<byte>, at: nat, hi: nat)
    requires at < hi <= |b| && b[hi - 1] == 0
    ensures Nul(b, at).Some? && Nul(b, at).value < hi
    decreases hi - at
  {
    if b[at] != 0 {
      NulBefore(b, at + 1, hi);
    }
  }

  lemma {:induction false} NamesAfter(blob: seq<byte>, h: Header, i: nat, r: Range)
    requires Framed(blob, h) && r.end <= h.offStrings
    ensures NamesOutside(blob, h, i, r)
    decreases if i <= h.sizeStruct then h.sizeStruct - i + 1 else 0
  {
    if ItemAt(blob, h, i) != Stop {
      NamesAfter(blob, h, ItemAt(blob, h, i).next, r);
    }
  }

  lemma {:induction false} NamesBefore(blob: seq<byte>, h: Header, i: nat, r: Range, size: nat)
    requires Framed(blob, h) && NamesBegin(blob, h, i, size) && h.offStrings + size <= h.offStruct < r.start
    requires h.offStruct < |blob| && blob[h.offStruct] == 0
    ensures NamesOutside(blob, h, i, r)
    decreases if i <= h.sizeStruct then h.sizeStruct - i + 1 else 0
  {
    if NameAt(blob, h, i).Some? {
      NulBefore(blob, NameAt(blob, h, i).value, h.offStruct + 1);
    }
    if ItemAt(blob, h, i) != Stop {
      NamesBefore(blob, h, ItemAt(blob, h, i).next, r, size);
    }
  }

  lemma {:induction false} ZeroBE(b: seq<byte>)
    requires b != [] && FromBE(b) == 0
    ensures b[0] == 0
  {
    if |b| > 1 {
      ZeroBE(b[..|b| - 1]);
    }
  }

  /** A struct block that begins with a token begins with a NUL, where a name unterminated in a strings block before it ends. */
  lemma {:induction false} TokensBeginWithNul(blob: seq<byte>, h: Header)
    requires Framed(blob, h) && ItemAt(blob, h, 0) != Stop
    ensures h.offStruct < |blob| && blob[h.offStruct] == 0
  {
    var s := blob[h.offStruct..h.offStruct + h.sizeStruct];
    var word := s[0..4];
    assert 1 <= FromBE(word) <= 4;
    ZeroBE(word[..3]);
    assert word[0] == blob[h.offStruct];
  }

  /** Any two-cell value inside the struct block may be overwritten when the blocks do not overlap. */
  lemma {:induction false} ApartIsPatchable(blob: seq<byte>, path: seq<byte>, name: seq<byte>)
    requires Apart(blob) && Lookup(blob, path, name).Some?
    requires var r, h := Lookup(blob, path, name).value, HeaderOf(blob).value;
             r.end - r.start == 8 && r.end <= h.offStruct + h.sizeStruct
    ensures Patchable(blob, path, name)
  {
    var r, h := Lookup(blob, path, name).value, HeaderOf(blob).value;
    if h.offStruct + h.sizeStruct <= h.offStrings {
      NamesAfter(blob, h, 0, r);
    } else {
      TokensBeginWithNul(blob, h);
      NamesBefore(blob, h, 0, r, SizeStrings(blob));
    }
  }

  // ---- what holds of any blob ----

  /** Values found by different names are different properties, and do not overlap. */
  lemma {:induction false} WalkDisjoint(blob: seq<byte>, h: Header, i: nat, stack: seq<seq<byte>>, path: seq<byte>, name: seq<byte>, path': seq<byte>, name': seq<byte>)
    requires Framed(blob, h) && name != name'
    requires Walk(blob, h, i, stack, path, name).Some? && Walk(blob, h, i, stack, path', name').Some?
    ensures var r, q := Walk(blob, h, i, stack, path, name).value, Walk(blob, h, i, stack, path', name').value;
            r.end <= q.start || q.end <= r.start
    decreases if i <= h.sizeStruct then h.sizeStruct - i + 1 else 0
  {
    match ItemAt(blob, h, i) {
      case Node(n, next) => WalkDisjoint(blob, h, next, stack + [n], path, name, path', name');
      case NodeEnd(next) => WalkDisjoint(blob, h, next, Popped(stack), path, name, path', name');
      case Prop(n, value, next) =>
        if !(n == name && IsPath(stack, path)) && !(n == name' && IsPath(stack, path')) {
          WalkDisjoint(blob, h, next, stack, path, name, path', name');
        }
      case Skip(next) => WalkDisjoint(blob, h, next, stack, path, name, path', name');
    }
  }
}
