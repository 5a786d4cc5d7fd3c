/** Trees written out as flattened device trees, and found again by path and name. */
module DeviceTreeRoundTrip {
  import opened Bytes
  import opened Wrappers
  import opened DeviceTree

  const SLASH: byte := 0x2f
  const FDT_END: nat := 9
  const STRUCT_AT: nat := 56

  // ---- trees, and what is found in them ----

  datatype Property = Property(name: seq<byte>, value: seq<byte>)

  datatype Tree = Tree(name: seq<byte>, props: seq<Property>, children: Trees)

  datatype Trees = NoTrees | More(first: Tree, rest: Trees)

  function PropOf(ps: seq<Property>, name: seq<byte>): Option<seq<byte>> {
    if ps == [] then None else if ps[0].name == name then Some(ps[0].value) else PropOf(ps[1..], name)
  }

  /** Descending from a node along the names of a path: the property of the first node there that has it. */
  function Seek(t: Tree, comps: seq<seq<byte>>, name: seq<byte>): Option<seq<byte>> {
    if comps == [] then PropOf(t.props, name) else SeekIn(t.children, comps, name)
  }

  function SeekIn(ts: Trees, comps: seq<seq<byte>>, name: seq<byte>): Option<seq<byte>>
    requires comps != []
  {
    match ts
    case NoTrees => None
    case More(t, rest) =>
      var found := if t.name == comps[0] then Seek(t, comps[1..], name) else None;
      if found.Some? then found else SeekIn(rest, comps, name)
  }

  /** `/` before each name. */
  function PathOf(comps: seq<seq<byte>>): seq<byte> {
    if comps == [] then [] else [SLASH] + comps[0] + PathOf(comps[1..])
  }

  // ---- writing them out ----

  function U32(n: nat): (b: seq<byte>)
    ensures |b| == 4
  {
    ToBE(n, 4)
  }

  function Zeros(n: nat): (z: seq<byte>)
    ensures |z| == n
  {
    seq(n, _ => 0)
  }

  function Padding(n: nat): (z: seq<byte>)
    ensures |z| == Align4(n) - n
  {
    Zeros(Align4(n) - n)
  }

  /** The strings block: names, each with its NUL. */
  function Strings(names: seq<seq<byte>>): seq<byte> {
    if names == [] then [] else Strings(names[..|names| - 1]) + names[|names| - 1] + [0]
  }

  /** Where the first of its occurrences is. */
  function OffsetOf(names: seq<seq<byte>>, name: seq<byte>): nat {
    if names == [] then 0
    else if name in names[..|names| - 1] then OffsetOf(names[..|names| - 1], name)
    else |Strings(names[..|names| - 1])|
  }

  function PropBytes(p: Property, names: seq<seq<byte>>): (b: seq<byte>)
    ensures |b| == 12 + Align4(|p.value|)
  {
    U32(FDT_PROP) + U32(|p.value|) + U32(OffsetOf(names, p.name)) + p.value + Padding(|p.value|)
  }

  function PropsBytes(ps: seq<Property>, names: seq<seq<byte>>): seq<byte> {
    if ps == [] then [] else PropBytes(ps[0], names) + PropsBytes(ps[1..], names)
  }

  function OpenBytes(name: seq<byte>): (b: seq<byte>)
    ensures |b| == 4 + Align4(|name| + 1)
  {
    U32(FDT_BEGIN_NODE) + name + [0] + Padding(|name| + 1)
  }

  function NodeBytes(t: Tree, names: seq<seq<byte>>): seq<byte> {
    OpenBytes(t.name) + PropsBytes(t.props, names) + NodesBytes(t.children, names) + U32(FDT_END_NODE)
  }

  function NodesBytes(ts: Trees, names: seq<seq<byte>>): seq<byte> {
    match ts
    case NoTrees => []
    case More(t, rest) => NodeBytes(t, names) + NodesBytes(rest, names)
  }

  function NamesOf(ps: seq<Property>): seq<seq<byte>> {
    if ps == [] then [] else [ps[0].name] + NamesOf(ps[1..])
  }

  /** Every property name of a tree, in the order they come. */
  function AllNames(t: Tree): seq<seq<byte>> {
    NamesOf(t.props) + NamesIn(t.children)
  }

  function NamesIn(ts: Trees): seq<seq<byte>> {
    match ts
    case NoTrees => []
    case More(t, rest) => AllNames(t) + NamesIn(rest)
  }

  function StructBlock(t: Tree): seq<byte> {
    NodeBytes(t, AllNames(t)) + U32(FDT_END)
  }

  /** The ten fields of the header, for version 17. */
  function HeaderBytes(structLen: nat, stringsLen: nat): (b: seq<byte>)
    ensures |b| == 40
  {
    U32(FDT_MAGIC) + U32(STRUCT_AT + structLen + stringsLen) + U32(STRUCT_AT) + U32(STRUCT_AT + structLen) + U32(40)
    + U32(17) + U32(16) + U32(0) + U32(stringsLen) + U32(structLen)
  }

  /** Header, an empty memory reservation block, structure and strings. */
  function Flatten(t: Tree): seq<byte> {
    var block, strings := StructBlock(t), Strings(AllNames(t));
    HeaderBytes(|block|, |strings|) + Zeros(16) + block + strings
  }

  // ---- what the format asks of names ----

  predicate NameOk(name: seq<byte>) {
    0 !in name && Utf8(name)
  }

  predicate PropsOk(ps: seq<Property>) {
    forall k :: 0 <= k < |ps| ==> NameOk(ps[k].name)
  }

  predicate NamesOk(t: Tree) {
    NameOk(t.name) && SLASH !in t.name && PropsOk(t.props) && AllNamesOk(t.children)
  }

  predicate AllNamesOk(ts: Trees) {
    match ts
    case NoTrees => true
    case More(t, rest) => NamesOk(t) && AllNamesOk(rest)
  }

  // ---- reading the pieces back ----

  lemma {:induction false} ReadU32(b: seq<byte>, off: nat, n: nat)
    requires off + 4 <= |b| && b[off..off + 4] == U32(n) && n < 0x1_0000_0000
    ensures BE32(b, off) == Some(n)
  {
    Pow256Values();
    FromToBE(n, 4);
  }

  lemma {:induction false} NulThere(b: seq<byte>, at: nat, name: seq<byte>)
    requires at + |name| < |b| && b[at..at + |name|] == name && b[at + |name|] == 0 && 0 !in name
    ensures Nul(b, at) == Some(at + |name|)
    decreases |name|
  {
    if name != [] {
      assert b[at] == name[0] && name[0] in name;
      assert b[at + 1..at + |name|] == name[1..];
      NulThere(b, at + 1, name[1..]);
    }
  }

  /** These bytes are in the struct block, at `i`. */
  predicate InStruct(blob: seq<byte>, h: Header, i: nat, b: seq<byte>) {
    && h.offStruct + h.sizeStruct <= |blob| && i + |b| <= h.sizeStruct
    && blob[h.offStruct + i..h.offStruct + i + |b|] == b
  }

  lemma {:induction false} InTwo(blob: seq<byte>, h: Header, i: nat, a: seq<byte>, b: seq<byte>)
    requires InStruct(blob, h, i, a + b)
    ensures InStruct(blob, h, i, a) && InStruct(blob, h, i + |a|, b)
  {
    var at := h.offStruct + i;
    assert blob[at..at + |a|] == blob[at..at + |a + b|][..|a|];
    assert blob[at + |a|..at + |a| + |b|] == blob[at..at + |a + b|][|a|..];
  }

  lemma {:induction false} StructU32(blob: seq<byte>, h: Header, i: nat, n: nat)
    requires InStruct(blob, h, i, U32(n)) && n < 0x1_0000_0000
    ensures BE32(blob[h.offStruct..h.offStruct + h.sizeStruct], i) == Some(n)
  {
    var s := blob[h.offStruct..h.offStruct + h.sizeStruct];
    assert s[i..i + 4] == blob[h.offStruct + i..h.offStruct + i + 4];
    ReadU32(s, i, n);
  }

  lemma {:induction false} AlignSum(i: nat, n: nat)
    requires i % 4 == 0
    ensures Align4(i + n) == i + Align4(n)
  {
  }

  /** A node's opening reads back as the node. */
  lemma {:induction false} OpenRead(blob: seq<byte>, h: Header, i: nat, name: seq<byte>)
    requires InStruct(blob, h, i, OpenBytes(name)) && NameOk(name) && i % 4 == 0
    ensures ItemAt(blob, h, i) == Node(name, i + |OpenBytes(name)|)
  {
    hide U32, ToBE, Align4, ItemAt, Utf8;
    var head, tail := U32(FDT_BEGIN_NODE) + name, [0] + Padding(|name| + 1);
    assert OpenBytes(name) == head + tail;
    InTwo(blob, h, i, head, tail);
    InTwo(blob, h, i, U32(FDT_BEGIN_NODE), name);
    StructU32(blob, h, i, FDT_BEGIN_NODE);
    NameInStruct(blob, h, i + 4, name, tail);
    AlignSum(i + 4, |name| + 1);
    NodeItem(blob, h, i, name);
  }

  lemma {:induction false} NameInStruct(blob: seq<byte>, h: Header, i: nat, name: seq<byte>, tail: seq<byte>)
    requires InStruct(blob, h, i, name) && InStruct(blob, h, i + |name|, tail) && tail != [] && tail[0] == 0 && 0 !in name
    ensures var s := blob[h.offStruct..h.offStruct + h.sizeStruct];
            Nul(s, i) == Some(i + |name|) && s[i..i + |name|] == name
  {
    var s := blob[h.offStruct..h.offStruct + h.sizeStruct];
    var at := h.offStruct + i + |name|;
    assert s[i..i + |name|] == name;
    var there := blob[at..at + |tail|];
    assert there[0] == blob[at] && s[i + |name|] == blob[at];
    NulThere(s, i, name);
  }

  lemma {:induction false} NodeItem(blob: seq<byte>, h: Header, i: nat, name: seq<byte>)
    requires Framed(blob, h) && i + 4 <= h.sizeStruct && Utf8(name)
    requires var s := blob[h.offStruct..h.offStruct + h.sizeStruct];
             BE32(s, i) == Some(FDT_BEGIN_NODE) && Nul(s, i + 4) == Some(i + 4 + |name|) && s[i + 4..i + 4 + |name|] == name
    ensures ItemAt(blob, h, i) == Node(name, Align4(i + 4 + |name| + 1))
  {
    hide BE32, Nul, Utf8, Align4;
  }

  lemma {:induction false} EndRead(blob: seq<byte>, h: Header, i: nat)
    requires InStruct(blob, h, i, U32(FDT_END_NODE))
    ensures ItemAt(blob, h, i) == NodeEnd(i + 4)
  {
    StructU32(blob, h, i, FDT_END_NODE);
  }

  lemma {:induction false} StopRead(blob: seq<byte>, h: Header, i: nat)
    requires InStruct(blob, h, i, U32(FDT_END))
    ensures ItemAt(blob, h, i) == Stop
  {
    StructU32(blob, h, i, FDT_END);
  }

  /** The strings block holds this name where the table says. */
  predicate Stored(blob: seq<byte>, h: Header, names: seq<seq<byte>>, name: seq<byte>) {
    var at := h.offStrings + OffsetOf(names, name);
    at + |name| < |blob| && blob[at..at + |name|] == name && blob[at + |name|] == 0
  }

  lemma {:induction false} PropPieces(a: seq<byte>, b: seq<byte>, c: seq<byte>, v: seq<byte>, pad: seq<byte>)
    ensures a + b + c + v + pad == a + (b + (c + (v + pad)))
  {
  }

  lemma {:induction false} PropParts(blob: seq<byte>, h: Header, i: nat, p: Property, names: seq<seq<byte>>)
    requires InStruct(blob, h, i, PropBytes(p, names))
    ensures InStruct(blob, h, i, U32(FDT_PROP)) && InStruct(blob, h, i + 4, U32(|p.value|))
    ensures InStruct(blob, h, i + 8, U32(OffsetOf(names, p.name))) && InStruct(blob, h, i + 12, p.value)
  {
    hide U32, Align4, OffsetOf, InStruct;
    var a, b, c := U32(FDT_PROP), U32(|p.value|), U32(OffsetOf(names, p.name));
    var rest := p.value + Padding(|p.value|);
    PropPieces(a, b, c, p.value, Padding(|p.value|));
    InTwo(blob, h, i, a, b + (c + rest));
    InTwo(blob, h, i + 4, b, c + rest);
    InTwo(blob, h, i + 8, c, rest);
    InTwo(blob, h, i + 12, p.value, Padding(|p.value|));
  }

  lemma {:induction false} PropRead(blob: seq<byte>, h: Header, i: nat, p: Property, names: seq<seq<byte>>)
    requires InStruct(blob, h, i, PropBytes(p, names)) && Stored(blob, h, names, p.name) && NameOk(p.name)
    requires i % 4 == 0 && |blob| < 0x1_0000_0000
    ensures var v := h.offStruct + i + 12;
            && ItemAt(blob, h, i) == Prop(p.name, Range(v, v + |p.value|), i + |PropBytes(p, names)|)
            && v + |p.value| <= h.offStruct + h.sizeStruct && blob[v..v + |p.value|] == p.value
  {
    hide U32, ToBE, Align4, ItemAt, PropBytes, Utf8, Nul, OffsetOf;
    var nameoff := OffsetOf(names, p.name);
    PropParts(blob, h, i, p, names);
    StructU32(blob, h, i, FDT_PROP);
    StructU32(blob, h, i + 4, |p.value|);
    StructU32(blob, h, i + 8, nameoff);
    PropItem(blob, h, i, |p.value|, h.offStrings + nameoff);
    NulThere(blob, h.offStrings + nameoff, p.name);
    AlignSum(i + 12, |p.value|);
  }

  // ---- the walk over a written tree ----

  /** What the walk is looking for, in the order it goes: of a node its own properties, then its children's. */
  function HitProps(ps: seq<Property>, stack: seq<seq<byte>>, path: seq<byte>, name: seq<byte>): Option<seq<byte>> {
    if IsPath(stack, path) then PropOf(ps, name) else None
  }

  function Hit(t: Tree, stack: seq<seq<byte>>, path: seq<byte>, name: seq<byte>): Option<seq<byte>> {
    var own := HitProps(t.props, stack + [t.name], path, name);
    if own.Some? then own else HitIn(t.children, stack + [t.name], path, name)
  }

  function HitIn(ts: Trees, stack: seq<seq<byte>>, path: seq<byte>, name: seq<byte>): Option<seq<byte>> {
    match ts
    case NoTrees => None
    case More(t, rest) =>
      var found := Hit(t, stack, path, name);
      if found.Some? then found else HitIn(rest, stack, path, name)
  }

  /** The walk from `i` ends in this value, or else goes on from `next`. */
  ghost predicate Leads(blob: seq<byte>, h: Header, i: nat, stack: seq<seq<byte>>, path: seq<byte>, name: seq<byte>,
                        hit: Option<seq<byte>>, next: nat, after: seq<seq<byte>>)
    requires Framed(blob, h)
  {
    if hit.Some? then Ends(blob, h, i, stack, path, name, hit.value)
    else Walk(blob, h, i, stack, path, name) == Walk(blob, h, next, after, path, name)
  }

  ghost predicate Ends(blob: seq<byte>, h: Header, i: nat, stack: seq<seq<byte>>, path: seq<byte>, name: seq<byte>, value: seq<byte>)
    requires Framed(blob, h)
  {
    var r := Walk(blob, h, i, stack, path, name);
    r.Some? && r.value.end <= h.offStruct + h.sizeStruct && blob[r.value.start..r.value.end] == value
  }

  ghost predicate Wellformed(blob: seq<byte>, h: Header, names: seq<seq<byte>>) {
    && Framed(blob, h) && |blob| < 0x1_0000_0000
    && forall k :: 0 <= k < |names| ==> Stored(blob, h, names, names[k])
  }

  lemma {:induction false} LeadsOn(blob: seq<byte>, h: Header, path: seq<byte>, name: seq<byte>,
                                   i: nat, stack: seq<seq<byte>>, first: Option<seq<byte>>, j: nat, mid: seq<seq<byte>>,
                                   second: Option<seq<byte>>, k: nat, after: seq<seq<byte>>)
    requires Framed(blob, h) && Leads(blob, h, i, stack, path, name, first, j, mid) && Leads(blob, h, j, mid, path, name, second, k, after)
    ensures Leads(blob, h, i, stack, path, name, if first.Some? then first else second, k, after)
  {
    hide Walk;
  }

  lemma {:induction false} Sum4(a: nat, b: nat)
    ensures a % 4 == 0 && b % 4 == 0 ==> (a + b) % 4 == 0
    ensures (12 + Align4(a)) % 4 == 0 && (4 + Align4(a)) % 4 == 0
  {
  }

  lemma {:induction false} PropsAligned(ps: seq<Property>, names: seq<seq<byte>>)
    ensures |PropsBytes(ps, names)| % 4 == 0
    decreases |ps|
  {
    hide PropBytes;
    if ps != [] {
      Sum4(|ps[0].value|, 0);
      Sum4(|PropBytes(ps[0], names)|, |PropsBytes(ps[1..], names)|);
      PropsAligned(ps[1..], names);
    }
  }

  lemma {:induction false} NodeAligned(t: Tree, names: seq<seq<byte>>)
    ensures |NodeBytes(t, names)| % 4 == 0
  {
    hide OpenBytes, PropsBytes, NodesBytes, U32, Align4;
    var a, b, c := |OpenBytes(t.name)|, |PropsBytes(t.props, names)|, |NodesBytes(t.children, names)|;
    PropsAligned(t.props, names);
    NodesAligned(t.children, names);
    Sum4(|t.name| + 1, 0);
    Sum4(a, b);
    Sum4(a + b, c);
    Sum4(a + b + c, 4);
  }

  lemma {:induction false} NodesAligned(ts: Trees, names: seq<seq<byte>>)
    ensures |NodesBytes(ts, names)| % 4 == 0
  {
    hide NodeBytes;
    match ts {
      case NoTrees =>
      case More(t, rest) =>
        NodeAligned(t, names);
        NodesAligned(rest, names);
        Sum4(|NodeBytes(t, names)|, |NodesBytes(rest, names)|);
    }
  }

  lemma {:induction false} StepProp(blob: seq<byte>, h: Header, i: nat, p: Property, next: nat, stack: seq<seq<byte>>, path: seq<byte>, name: seq<byte>)
    requires Framed(blob, h)
    requires var v := h.offStruct + i + 12;
             && ItemAt(blob, h, i) == Prop(p.name, Range(v, v + |p.value|), next)
             && v + |p.value| <= h.offStruct + h.sizeStruct && blob[v..v + |p.value|] == p.value
    ensures Leads(blob, h, i, stack, path, name, HitProps([p], stack, path, name), next, stack)
  {
    hide ItemAt, IsPath;
    assert PropOf([p], name) == if p.name == name then Some(p.value) else None;
  }

  lemma {:induction false} StepNode(blob: seq<byte>, h: Header, i: nat, n: seq<byte>, next: nat, stack: seq<seq<byte>>, path: seq<byte>, name: seq<byte>)
    requires Framed(blob, h) && ItemAt(blob, h, i) == Node(n, next)
    ensures Leads(blob, h, i, stack, path, name, None, next, stack + [n])
  {
    hide ItemAt;
  }

  lemma {:induction false} StepEnd(blob: seq<byte>, h: Header, i: nat, stack: seq<seq<byte>>, n: seq<byte>, path: seq<byte>, name: seq<byte>)
    requires Framed(blob, h) && ItemAt(blob, h, i) == NodeEnd(i + 4)
    ensures Leads(blob, h, i, stack + [n], path, name, None, i + 4, stack)
  {
    hide ItemAt;
    assert Popped(stack + [n]) == stack;
  }

  lemma {:induction false} HitFirst(ps: seq<Property>, stack: seq<seq<byte>>, path: seq<byte>, name: seq<byte>)
    requires ps != []
    ensures var first := HitProps([ps[0]], stack, path, name);
            HitProps(ps, stack, path, name) == if first.Some? then first else HitProps(ps[1..], stack, path, name)
  {
    hide IsPath;
    assert PropOf([ps[0]], name) == if ps[0].name == name then Some(ps[0].value) else None;
  }

  lemma {:induction false} NoHit(stack: seq<seq<byte>>, path: seq<byte>, name: seq<byte>)
    ensures HitProps([], stack, path, name) == None
  {
  }

  lemma {:induction false} InTable(blob: seq<byte>, h: Header, names: seq<seq<byte>>, name: seq<byte>)
    requires Wellformed(blob, h, names) && name in names
    ensures Stored(blob, h, names, name)
  {
    hide Stored;
  }

  lemma {:induction false} WalkProps(blob: seq<byte>, h: Header, i: nat, ps: seq<Property>, names: seq<seq<byte>>,
                                     stack: seq<seq<byte>>, path: seq<byte>, name: seq<byte>)
    requires Wellformed(blob, h, names) && InStruct(blob, h, i, PropsBytes(ps, names)) && PropsOk(ps) && i % 4 == 0
    requires forall k :: 0 <= k < |ps| ==> ps[k].name in names
    ensures Leads(blob, h, i, stack, path, name, HitProps(ps, stack, path, name), i + |PropsBytes(ps, names)|, stack)
    decreases |ps|
  {
    hide PropBytes, Walk, ItemAt, IsPath, Leads, HitProps, Stored, Align4;
    if ps == [] {
      NothingLeads(blob, h, i, stack, path, name);
      NoHit(stack, path, name);
    } else {
      var p, rest := ps[0], ps[1..];
      var j := i + |PropBytes(p, names)|;
      assert p.name in names;
      InTwo(blob, h, i, PropBytes(p, names), PropsBytes(rest, names));
      InTable(blob, h, names, p.name);
      PropRead(blob, h, i, p, names);
      StepProp(blob, h, i, p, j, stack, path, name);
      Sum4(|p.value|, 0);
      Sum4(i, |PropBytes(p, names)|);
      assert forall k :: 0 <= k < |rest| ==> rest[k] == ps[k + 1];
      WalkProps(blob, h, j, rest, names, stack, path, name);
      HitFirst(ps, stack, path, name);
      LeadsOn(blob, h, path, name, i, stack, HitProps([p], stack, path, name), j, stack, HitProps(rest, stack, path, name), j + |PropsBytes(rest, names)|, stack);
    }
  }

  lemma {:induction false} WalkNode(blob: seq<byte>, h: Header, i: nat, t: Tree, names: seq<seq<byte>>,
                                    stack: seq<seq<byte>>, path: seq<byte>, name: seq<byte>)
    requires Wellformed(blob, h, names) && InStruct(blob, h, i, NodeBytes(t, names)) && NamesOk(t) && i % 4 == 0
    requires forall n :: n in AllNames(t) ==> n in names
    decreases t
    ensures Leads(blob, h, i, stack, path, name, Hit(t, stack, path, name), i + |NodeBytes(t, names)|, stack)
  {
    hide OpenBytes, PropsBytes, NodesBytes, U32, Walk, ItemAt, Leads, HitProps, HitIn;
    var a, b, c, d := OpenBytes(t.name), PropsBytes(t.props, names), NodesBytes(t.children, names), U32(FDT_END_NODE);
    var i1, i2, i3 := i + |a|, i + |a| + |b|, i + |a| + |b| + |c|;
    var inside := stack + [t.name];
    Pieces(blob, h, i, a, b, c, d);
    PiecesAligned(t, names, i);
    PropNamesIn(t);
    OpenRead(blob, h, i, t.name);
    StepNode(blob, h, i, t.name, i1, stack, path, name);
    WalkProps(blob, h, i1, t.props, names, inside, path, name);
    WalkNodes(blob, h, i2, t.children, names, inside, path, name);
    EndRead(blob, h, i3);
    StepEnd(blob, h, i3, stack, t.name, path, name);
    var own, below := HitProps(t.props, inside, path, name), HitIn(t.children, inside, path, name);
    LeadsOn(blob, h, path, name, i, stack, None, i1, inside, own, i2, inside);
    LeadsOn(blob, h, path, name, i, stack, own, i2, inside, below, i3, inside);
    LeadsOn(blob, h, path, name, i, stack, if own.Some? then own else below, i3, inside, None, i3 + 4, stack);
  }

  lemma {:induction false} PiecesAligned(t: Tree, names: seq<seq<byte>>, i: nat)
    requires i % 4 == 0
    ensures var i1 := i + |OpenBytes(t.name)|; i1 % 4 == 0 && (i1 + |PropsBytes(t.props, names)|) % 4 == 0
  {
    hide PropsBytes, U32, Align4;
    PropsAligned(t.props, names);
    Sum4(|t.name| + 1, 0);
    Sum4(i, |OpenBytes(t.name)|);
    Sum4(i + |OpenBytes(t.name)|, |PropsBytes(t.props, names)|);
  }

  lemma {:induction false} Pieces(blob: seq<byte>, h: Header, i: nat, a: seq<byte>, b: seq<byte>, c: seq<byte>, d: seq<byte>)
    requires InStruct(blob, h, i, a + b + c + d)
    ensures InStruct(blob, h, i, a) && InStruct(blob, h, i + |a|, b) && InStruct(blob, h, i + |a| + |b|, c)
    ensures InStruct(blob, h, i + |a| + |b| + |c|, d)
  {
    InTwo(blob, h, i, a + b + c, d);
    InTwo(blob, h, i, a + b, c);
    InTwo(blob, h, i, a, b);
  }

  lemma {:induction false} PropNamesIn(t: Tree)
    ensures forall k :: 0 <= k < |t.props| ==> t.props[k].name in AllNames(t)
    ensures forall n :: n in NamesIn(t.children) ==> n in AllNames(t)
  {
    NamesThere(t.props);
  }

  lemma {:induction false} NamesThere(ps: seq<Property>)
    ensures forall k :: 0 <= k < |ps| ==> ps[k].name in NamesOf(ps)
  {
    if ps != [] {
      NamesThere(ps[1..]);
      forall k | 0 <= k < |ps| ensures ps[k].name in NamesOf(ps) {
        if k > 0 {
          assert ps[1..][k - 1] == ps[k];
        }
      }
    }
  }

  lemma {:induction false} NothingLeads(blob: seq<byte>, h: Header, i: nat, stack: seq<seq<byte>>, path: seq<byte>, name: seq<byte>)
    requires Framed(blob, h)
    ensures Leads(blob, h, i, stack, path, name, None, i, stack)
  {
    hide Walk;
  }

  lemma {:induction false} WalkNodes(blob: seq<byte>, h: Header, i: nat, ts: Trees, names: seq<seq<byte>>,
                                     stack: seq<seq<byte>>, path: seq<byte>, name: seq<byte>)
    requires Wellformed(blob, h, names) && InStruct(blob, h, i, NodesBytes(ts, names)) && AllNamesOk(ts) && i % 4 == 0
    requires forall n :: n in NamesIn(ts) ==> n in names
    decreases ts
    ensures Leads(blob, h, i, stack, path, name, HitIn(ts, stack, path, name), i + |NodesBytes(ts, names)|, stack)
  {
    hide NodeBytes, Walk, Leads, Hit;
    match ts {
      case NoTrees => NothingLeads(blob, h, i, stack, path, name);
      case More(t, rest) =>
        var a, b := NodeBytes(t, names), NodesBytes(rest, names);
        InTwo(blob, h, i, a, b);
        NodeAligned(t, names);
        Sum4(i, |a|);
        WalkNode(blob, h, i, t, names, stack, path, name);
        WalkNodes(blob, h, i + |a|, rest, names, stack, path, name);
        LeadsOn(blob, h, path, name, i, stack, Hit(t, stack, path, name), i + |a|, stack, HitIn(rest, stack, path, name), i + |a| + |b|, stack);
    }
  }

  // ---- the blob as a whole ----

  lemma {:induction false} OffsetFits(names: seq<seq<byte>>, name: seq<byte>)
    requires name in names
    ensures var at, s := OffsetOf(names, name), Strings(names);
            at + |name| < |s| && s[at..at + |name|] == name && s[at + |name|] == 0
  {
    var before, last := names[..|names| - 1], names[|names| - 1];
    assert names == before + [last];
    var s, t := Strings(names), Strings(before);
    assert s == t + (last + [0]);
    if name in before {
      OffsetFits(before, name);
      var at := OffsetOf(before, name);
      assert s[at..at + |name|] == t[at..at + |name|] && s[at + |name|] == t[at + |name|];
    } else {
      assert name == last;
      assert s[|t|..|t| + |last|] == last;
    }
  }

  lemma {:induction false} HeaderRead(t: Tree)
    requires |Flatten(t)| < 0x1_0000_0000
    ensures var n := |StructBlock(t)|; HeaderOf(Flatten(t)) == Some(Header(STRUCT_AT, STRUCT_AT + n, n))
  {
    hide StructBlock, Strings, AllNames, HeaderBytes, U32;
    var blob, block, strings := Flatten(t), StructBlock(t), Strings(AllNames(t));
    var head := HeaderBytes(|block|, |strings|);
    assert |blob| == STRUCT_AT + |block| + |strings|;
    assert blob[..40] == head;
    HeaderFields(|block|, |strings|);
    FieldInFront(blob, head, 0, FDT_MAGIC);
    FieldInFront(blob, head, 8, STRUCT_AT);
    FieldInFront(blob, head, 12, STRUCT_AT + |block|);
    FieldInFront(blob, head, 36, |block|);
  }

  lemma {:induction false} FieldInFront(blob: seq<byte>, head: seq<byte>, off: nat, n: nat)
    requires |head| == 40 <= |blob| && blob[..40] == head && off + 4 <= 40 && head[off..off + 4] == U32(n) && n < 0x1_0000_0000
    ensures BE32(blob, off) == Some(n)
  {
    hide U32;
    assert blob[off..off + 4] == head[off..off + 4];
    ReadU32(blob, off, n);
  }

  lemma {:induction false} HeaderFields(structLen: nat, stringsLen: nat)
    ensures var head := HeaderBytes(structLen, stringsLen);
            && head[0..4] == U32(FDT_MAGIC) && head[8..12] == U32(STRUCT_AT) && head[12..16] == U32(STRUCT_AT + structLen)
            && head[36..40] == U32(structLen)
  {
    hide U32;
  }

  lemma {:induction false} BlocksRead(t: Tree)
    requires |Flatten(t)| < 0x1_0000_0000
    ensures var n := |StructBlock(t)|;
            var h := Header(STRUCT_AT, STRUCT_AT + n, n);
            InStruct(Flatten(t), h, 0, StructBlock(t)) && Wellformed(Flatten(t), h, AllNames(t))
  {
    hide StructBlock, Strings, AllNames, HeaderBytes, U32, OffsetOf;
    var blob, block, names := Flatten(t), StructBlock(t), AllNames(t);
    var strings := Strings(names);
    var h := Header(STRUCT_AT, STRUCT_AT + |block|, |block|);
    var front := HeaderBytes(|block|, |strings|) + Zeros(16);
    assert blob == front + block + strings && |front| == STRUCT_AT;
    assert blob[STRUCT_AT..STRUCT_AT + |block|] == block && blob[STRUCT_AT + |block|..] == strings;
    forall k | 0 <= k < |names| ensures Stored(blob, h, names, names[k]) {
      StoredName(blob, h, names, names[k]);
    }
  }

  lemma {:induction false} WalkStops(blob: seq<byte>, h: Header, i: nat, stack: seq<seq<byte>>, path: seq<byte>, name: seq<byte>)
    requires Framed(blob, h) && ItemAt(blob, h, i) == Stop
    ensures Walk(blob, h, i, stack, path, name) == None
  {
    hide ItemAt;
  }

  lemma {:induction false} StoredName(blob: seq<byte>, h: Header, names: seq<seq<byte>>, name: seq<byte>)
    requires name in names && h.offStrings <= |blob| && blob[h.offStrings..] == Strings(names)
    ensures Stored(blob, h, names, name)
  {
    hide OffsetOf;
    OffsetFits(names, name);
    var at, strings := OffsetOf(names, name), Strings(names);
    assert blob[h.offStrings + at..h.offStrings + at + |name|] == strings[at..at + |name|];
    assert blob[h.offStrings + at + |name|] == strings[at + |name|];
  }

  /** Walking a written tree from its start comes to what the walk's order hits first. */
  lemma {:induction false} LookupHits(t: Tree, path: seq<byte>, name: seq<byte>)
    requires NamesOk(t) && |Flatten(t)| < 0x1_0000_0000
    ensures var blob, hit := Flatten(t), Hit(t, [], path, name);
            && Value(blob, path, name) == hit
            && (hit.Some? ==> Lookup(blob, path, name).value.end <= STRUCT_AT + |StructBlock(t)|)
  {
    hide NodeBytes, AllNames, Flatten, U32, Hit, Walk, ItemAt;
    var blob, n, node := Flatten(t), |StructBlock(t)|, NodeBytes(t, AllNames(t));
    var h := Header(STRUCT_AT, STRUCT_AT + n, n);
    HeaderRead(t);
    BlocksRead(t);
    InTwo(blob, h, 0, node, U32(FDT_END));
    WalkNode(blob, h, 0, t, AllNames(t), [], path, name);
    StopRead(blob, h, |node|);
    WalkStops(blob, h, |node|, [], path, name);
  }

  // ---- paths ----

  predicate Plain(comps: seq<seq<byte>>) {
    forall k :: 0 <= k < |comps| ==> SLASH !in comps[k]
  }

  lemma {:induction false} PathLast(comps: seq<seq<byte>>, last: seq<byte>)
    ensures PathOf(comps + [last]) == PathOf(comps) + [SLASH] + last
  {
    if comps == [] {
      assert [] + [last] == [last] && [last][1..] == [];
      assert PathOf([last]) == [SLASH] + last + [];
    } else {
      PathLast(comps[1..], last);
      assert (comps + [last])[1..] == comps[1..] + [last];
      assert [SLASH] + comps[0] + (PathOf(comps[1..]) + [SLASH] + last) == [SLASH] + comps[0] + PathOf(comps[1..]) + [SLASH] + last;
    }
  }

  /** The code's path of a stack of names, built from its end, is a slash before each. */
  lemma {:induction false} JoinedPath(names: seq<seq<byte>>)
    requires names != []
    ensures [SLASH] + Joined(names) == PathOf(names)
  {
    if |names| == 1 {
      assert names[1..] == [];
      assert [SLASH] + names[0] + [] == [SLASH] + names[0];
    } else {
      var before, last := names[..|names| - 1], names[|names| - 1];
      JoinedPath(before);
      PathLast(before, last);
      assert names == before + [last];
      assert [SLASH] + (Joined(before) + [SLASH] + last) == [SLASH] + Joined(before) + [SLASH] + last;
    }
  }

  lemma {:induction false} PathHead(comps: seq<seq<byte>>)
    requires comps != []
    ensures var p := PathOf(comps);
            |p| >= 1 + |comps[0]| && p[0] == SLASH && p[1..1 + |comps[0]|] == comps[0] && p[1 + |comps[0]|..] == PathOf(comps[1..])
    ensures |comps| > 1 ==> |PathOf(comps)| > 1 + |comps[0]| && PathOf(comps)[1 + |comps[0]|] == SLASH
  {
    if |comps| > 1 {
      PathHead(comps[1..]);
    }
  }

  /** Two paths whose names hold no slash are the same names. */
  lemma {:induction false} PathsDiffer(a: seq<seq<byte>>, b: seq<seq<byte>>)
    requires Plain(a) && Plain(b) && PathOf(a) == PathOf(b)
    ensures a == b
  {
    if a == [] || b == [] {
      if a != [] {
        PathHead(a);
      }
      if b != [] {
        PathHead(b);
      }
    } else {
      PathHead(a);
      PathHead(b);
      SameFirst(a, b);
      assert Plain(a[1..]) && Plain(b[1..]);
      PathsDiffer(a[1..], b[1..]);
      assert a == [a[0]] + a[1..] && b == [b[0]] + b[1..];
    }
  }

  lemma {:induction false} SameFirst(a: seq<seq<byte>>, b: seq<seq<byte>>)
    requires a != [] && b != [] && Plain(a) && Plain(b) && PathOf(a) == PathOf(b)
    ensures a[0] == b[0]
  {
    PathHead(a);
    PathHead(b);
    if |a[0]| < |b[0]| {
      NotLonger(a, b);
    } else if |b[0]| < |a[0]| {
      NotLonger(b, a);
    }
  }

  lemma {:induction false} HeadByte(comps: seq<seq<byte>>, k: nat)
    requires comps != [] && Plain(comps) && k < |comps[0]|
    ensures |PathOf(comps)| > 1 + k && PathOf(comps)[1 + k] != SLASH
  {
    PathHead(comps);
    assert PathOf(comps)[1 + k] == PathOf(comps)[1..1 + |comps[0]|][k] == comps[0][k];
    assert comps[0][k] in comps[0];
  }

  lemma {:induction false} NotLonger(a: seq<seq<byte>>, b: seq<seq<byte>>)
    requires a != [] && b != [] && Plain(b) && PathOf(a) == PathOf(b)
    ensures |a[0]| >= |b[0]|
  {
    if |a[0]| < |b[0]| {
      HeadByte(b, |a[0]|);
      PathHead(a);
      PathHead(b);
    }
  }

  // ---- descending is what the walk's order comes to ----

  /** The stack is the root and names below it; the path goes on past them. */
  ghost predicate On(stack: seq<seq<byte>>, comps: seq<seq<byte>>) {
    stack != [] && Plain(stack[1..]) && Plain(comps)
  }

  lemma {:induction false} PathIs(stack: seq<seq<byte>>, comps: seq<seq<byte>>)
    requires On(stack, comps) && comps != []
    ensures IsPath(stack, PathOf(comps)) <==> stack[1..] == comps
  {
    if |stack| > 1 {
      JoinedPath(stack[1..]);
      if PathOf(stack[1..]) == PathOf(comps) {
        PathsDiffer(stack[1..], comps);
      }
    }
  }

  lemma {:induction false} Deeper(stack: seq<seq<byte>>, comps: seq<seq<byte>>, name: seq<byte>)
    requires On(stack, comps) && SLASH !in name
    ensures On(stack + [name], comps) && (stack + [name])[1..] == stack[1..] + [name]
  {
  }

  /** Nothing is hit below a node that the path does not lead through. */
  lemma {:induction false} Misses(ts: Trees, stack: seq<seq<byte>>, comps: seq<seq<byte>>, name: seq<byte>)
    requires On(stack, comps) && comps != [] && AllNamesOk(ts) && !(stack[1..] < comps)
    ensures HitIn(ts, stack, PathOf(comps), name) == None
  {
    match ts {
      case NoTrees =>
      case More(t, rest) =>
        MissesNode(t, stack, comps, name);
        Misses(rest, stack, comps, name);
    }
  }

  lemma {:induction false} MissesNode(t: Tree, stack: seq<seq<byte>>, comps: seq<seq<byte>>, name: seq<byte>)
    requires On(stack, comps) && comps != [] && NamesOk(t) && !(stack[1..] + [t.name] <= comps)
    ensures Hit(t, stack, PathOf(comps), name) == None
  {
    Deeper(stack, comps, t.name);
    PathIs(stack + [t.name], comps);
    Misses(t.children, stack + [t.name], comps, name);
  }

  lemma {:induction false} Hits(ts: Trees, stack: seq<seq<byte>>, comps: seq<seq<byte>>, name: seq<byte>)
    requires On(stack, comps) && AllNamesOk(ts) && stack[1..] < comps
    ensures HitIn(ts, stack, PathOf(comps), name) == SeekIn(ts, comps[|stack| - 1..], name)
  {
    match ts {
      case NoTrees =>
      case More(t, rest) =>
        HitsNode(t, stack, comps, name);
        Hits(rest, stack, comps, name);
    }
  }

  lemma {:induction false} HitsNode(t: Tree, stack: seq<seq<byte>>, comps: seq<seq<byte>>, name: seq<byte>)
    requires On(stack, comps) && NamesOk(t) && stack[1..] < comps
    ensures Hit(t, stack, PathOf(comps), name) == if t.name == comps[|stack| - 1] then Seek(t, comps[|stack|..], name) else None
  {
    var inside := stack + [t.name];
    Deeper(stack, comps, t.name);
    if t.name != comps[|stack| - 1] {
      MissesNode(t, stack, comps, name);
    } else {
      PathIs(inside, comps);
      if |stack| == |comps| {
        assert inside[1..] == comps && comps[|stack|..] == [];
        Misses(t.children, inside, comps, name);
      } else {
        assert inside[1..] < comps;
        Hits(t.children, inside, comps, name);
      }
    }
  }

  // ---- the round trip ----

  /** Every property of every node of a written tree is found under its path and name, and nothing else is. */
  lemma {:induction false} FoundAgain(t: Tree, comps: seq<seq<byte>>, name: seq<byte>)
    requires NamesOk(t) && |Flatten(t)| < 0x1_0000_0000 && comps != [] && Plain(comps)
    ensures Value(Flatten(t), PathOf(comps), name) == Seek(t, comps, name)
  {
    var path, root := PathOf(comps), [t.name];
    LookupHits(t, path, name);
    assert [] + [t.name] == root && root[1..] == [];
    PathIs(root, comps);
    Hits(t.children, root, comps, name);
  }

  /** And a two-cell property found may be overwritten. */
  lemma {:induction false} FoundIsPatchable(t: Tree, comps: seq<seq<byte>>, name: seq<byte>)
    requires NamesOk(t) && |Flatten(t)| < 0x1_0000_0000 && comps != [] && Plain(comps)
    requires Seek(t, comps, name).Some? && |Seek(t, comps, name).value| == 8
    ensures Patchable(Flatten(t), PathOf(comps), name)
  {
    FoundAgain(t, comps, name);
    LookupHits(t, PathOf(comps), name);
    HeaderRead(t);
    ApartIsPatchable(Flatten(t), PathOf(comps), name);
  }
}
