/** What the tree walk accepts as a name: the UTF-8 form of some text, and nothing else. */
module Unicode {
  import opened Bytes
  import opened DeviceTree

  /** The code points text is made of: all but the surrogates. */
  predicate Scalar(n: nat) {
    n < 0xd800 || 0xe000 <= n < 0x11_0000
  }

  function Trail(n: nat): byte {
    (0x80 + n % 64) as byte
  }

  /** One code point in UTF-8, section 3 of RFC 3629. */
  function Encoded(n: nat): (s: seq<byte>)
    requires Scalar(n)
    ensures |s| > 0
  {
    if n < 0x80 then [n as byte]
    else if n < 0x800 then [(0xc0 + n / 64) as byte, Trail(n)]
    else if n < 0x1_0000 then [(0xe0 + n / 64 / 64) as byte, Trail(n / 64), Trail(n)]
    else [(0xf0 + n / 64 / 64 / 64) as byte, Trail(n / 64 / 64), Trail(n / 64), Trail(n)]
  }

  ghost predicate Scalars(ns: seq<nat>) {
    forall i :: 0 <= i < |ns| ==> Scalar(ns[i])
  }

  function Text(ns: seq<nat>): seq<byte>
    requires Scalars(ns)
  {
    if ns == [] then [] else Encoded(ns[0]) + Text(ns[1..])
  }

  /** Its bytes by their values, the lead first; the encoding is what a reader must accept. */
  lemma {:induction false} Leads(n: nat)
    requires Scalar(n) && n >= 0x80
    ensures var s := Encoded(n);
            && (n < 0x800 ==> 0xc2 <= s[0] <= 0xdf)
            && (0x800 <= n < 0x1_0000 ==> 0xe0 <= s[0] <= 0xef && Second3(s[0], s[1]))
            && (0x1_0000 <= n ==> 0xf0 <= s[0] <= 0xf4 && Second4(s[0], s[1]))
  {
  }

  lemma {:induction false} OneChar(n: nat, rest: seq<byte>)
    requires Scalar(n)
    ensures CharLen(Encoded(n) + rest) == |Encoded(n)|
  {
    hide Encoded, Second3, Second4;
    if n >= 0x80 {
      Leads(n);
    }
    Shape(n);
    Front(Encoded(n), rest);
  }

  lemma {:induction false} Shape(n: nat)
    requires Scalar(n)
    ensures var s := Encoded(n);
            && (n < 0x80 ==> |s| == 1 && s[0] < 0x80)
            && (0x80 <= n < 0x800 ==> |s| == 2)
            && (0x800 <= n < 0x1_0000 ==> |s| == 3)
            && (0x1_0000 <= n ==> |s| == 4)
            && forall i :: 1 <= i < |s| ==> Follow(s[i])
  {
  }

  /** The length is settled by the bytes it counts. */
  lemma {:induction false} Front(s: seq<byte>, rest: seq<byte>)
    requires CharLen(s) == |s| > 0
    ensures CharLen(s + rest) == |s|
  {
    hide Second3, Second4, Follow;
    assert forall i :: 0 <= i < |s| ==> (s + rest)[i] == s[i];
  }

  /** The last digit, and what is left without it. */
  lemma {:induction false} LastDigit(n: nat, b: byte)
    requires Follow(b)
    ensures var m := n * 64 + (b as nat - 0x80); m / 64 == n && Trail(m) == b
  {
  }

  /** The code point at the front. */
  lemma {:induction false} FrontChar(s: seq<byte>) returns (n: nat)
    requires CharLen(s) > 0
    ensures Scalar(n) && Encoded(n) == s[..CharLen(s)]
  {
    hide Trail;
    var k := CharLen(s);
    if k == 1 {
      n := s[0] as nat;
    } else if k == 2 {
      n := (s[0] as nat - 0xc0) * 64 + (s[1] as nat - 0x80);
      LastDigit(s[0] as nat - 0xc0, s[1]);
    } else if k == 3 {
      n := FrontOfThree(s);
    } else {
      n := FrontOfFour(s);
    }
  }

  lemma {:induction false} FrontOfThree(s: seq<byte>) returns (n: nat)
    requires CharLen(s) == 3
    ensures Scalar(n) && Encoded(n) == s[..3]
  {
    hide Trail;
    var m := (s[0] as nat - 0xe0) * 64 + (s[1] as nat - 0x80);
    n := m * 64 + (s[2] as nat - 0x80);
    LastDigit(s[0] as nat - 0xe0, s[1]);
    LastDigit(m, s[2]);
  }

  lemma {:induction false} FrontOfFour(s: seq<byte>) returns (n: nat)
    requires CharLen(s) == 4
    ensures Scalar(n) && Encoded(n) == s[..4]
  {
    hide Trail;
    var l := (s[0] as nat - 0xf0) * 64 + (s[1] as nat - 0x80);
    var m := l * 64 + (s[2] as nat - 0x80);
    n := m * 64 + (s[3] as nat - 0x80);
    LastDigit(s[0] as nat - 0xf0, s[1]);
    LastDigit(l, s[2]);
    LastDigit(m, s[3]);
  }

  lemma {:induction false} TextAccepted(ns: seq<nat>)
    requires Scalars(ns)
    ensures Utf8(Text(ns))
  {
    if ns != [] {
      OneChar(ns[0], Text(ns[1..]));
      TextAccepted(ns[1..]);
      assert Text(ns)[|Encoded(ns[0])|..] == Text(ns[1..]);
    }
  }

  lemma {:induction false} AcceptedText(s: seq<byte>) returns (ns: seq<nat>)
    requires Utf8(s)
    ensures Scalars(ns) && Text(ns) == s
  {
    ns := [];
    if s != [] {
      var n := FrontChar(s);
      var more := AcceptedText(s[CharLen(s)..]);
      ns := [n] + more;
      assert ns[1..] == more;
    }
  }

  /** Bytes are accepted if and only if they are the UTF-8 form of code points. */
  lemma {:induction false} AcceptedExactly(s: seq<byte>)
    ensures Utf8(s) <==> exists ns :: Scalars(ns) && Text(ns) == s
  {
    if Utf8(s) {
      var ns := AcceptedText(s);
    }
    forall ns | Scalars(ns) && Text(ns) == s ensures Utf8(s) {
      TextAccepted(ns);
    }
  }
}
