/** The demultiplexer both ends decode into: console bytes aside, other frames held in order. */
module MuxModule {
  import opened Wrappers
  import opened Frames

  class Mux {
    var held: seq<Frame>
    var console: seq<bv8>

    constructor ()
      ensures held == [] && console == []
    {
      held, console := [], [];
    }

    method Push(frames: seq<Frame>)
      modifies this
      ensures held == old(held) + PageFrames(frames)
      ensures console == old(console) + ConsoleBytes(frames)
    {
      assert frames[..0] == [];
      for i := 0 to |frames|
        invariant held == old(held) + PageFrames(frames[..i])
        invariant console == old(console) + ConsoleBytes(frames[..i])
      {
        PageFramesConcat(frames[..i], [frames[i]]);
        ConsoleBytesConcat(frames[..i], [frames[i]]);
        assert frames[..i + 1] == frames[..i] + [frames[i]];
        if IsConsole(frames[i]) {
          console := console + frames[i].bytes;
        } else {
          held := held + [frames[i]];
        }
      }
      assert frames[..|frames|] == frames;
    }

    /** Removes and returns the first held frame of type `want`. */
    method TakeMatching(want: nat) returns (r: Option<Frame>)
      modifies this`held
      ensures r.Some? <==> Holds(old(held), want)
      ensures r.Some? ==> r.value == First(old(held), want) && held == WithoutFirst(old(held), want)
      ensures r.None? ==> held == old(held)
    {
      var i := 0;
      while i < |held| && TypeByte(held[i]) != want
        invariant i <= |held|
        invariant forall j :: 0 <= j < i ==> TypeByte(held[j]) != want
      {
        i := i + 1;
      }
      if i == |held| {
        return None;
      }
      assert FirstIndex(held, want) == i;
      r := Some(held[i]);
      held := held[..i] + held[i + 1..];
    }

    method TakeConsole() returns (bytes: seq<bv8>)
      modifies this`console
      ensures bytes == old(console) && console == []
    {
      bytes := console;
      console := [];
    }
  }
}
