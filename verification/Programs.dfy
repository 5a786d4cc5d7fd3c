/** Bodies made of blocks that only ever go forward: every run reaches the end. */
module Programs {
  import opened Machine
  import opened Blocks

  /** Where block `k` starts, from the start of the body. */
  function Off(blocks: seq<seq<Ins>>, k: nat): nat
    requires k <= |blocks|
  {
    if k == 0 then 0 else Off(blocks, k - 1) + SizeOf(blocks[k - 1])
  }

  /** How many instructions lie from block `i` up to the last block. */
  function Remaining(blocks: seq<seq<Ins>>, i: nat): nat
    requires i < |blocks|
    decreases |blocks| - i
  {
    if i == |blocks| - 1 then 0 else |blocks[i]| + Remaining(blocks, i + 1)
  }

  /** Block `i` is of a known shape, and what it may transfer to is the start of a later block. */
  ghost predicate Forward(isa: Isa, blocks: seq<seq<Ins>>, targets: seq<nat>, i: nat)
    requires i < |blocks| - 1 && |targets| == |blocks| - 1
  {
    && i < targets[i] < |blocks|
    && Off(blocks, i) <= Off(blocks, targets[i]) < Off(blocks, i) + CODE_LIMIT
    && (Off(blocks, targets[i]) - Off(blocks, i)) % 2 == 0
    && Block(isa, blocks[i], Off(blocks, targets[i]) - Off(blocks, i))
  }

  ghost predicate Body(isa: Isa, blocks: seq<seq<Ins>>, targets: seq<nat>) {
    blocks != [] && |targets| == |blocks| - 1 && forall i :: 0 <= i < |blocks| - 1 ==> Forward(isa, blocks, targets, i)
  }

  ghost predicate BlockIn(isa: Isa, mem: seq<bv8>, start: nat, blocks: seq<seq<Ins>>, i: nat)
    requires i < |blocks|
  {
    LaidOut(isa, mem, start + Off(blocks, i), blocks[i])
  }

  /** The whole body is in memory, below the limit. */
  ghost predicate Loaded(isa: Isa, mem: seq<bv8>, start: nat, blocks: seq<seq<Ins>>) {
    && |mem| == IMAGE_LEN && start % 2 == 0 && start + Off(blocks, |blocks|) <= CODE_LIMIT
    && forall i :: 0 <= i < |blocks| ==> BlockIn(isa, mem, start, blocks, i)
  }

  lemma {:induction false} OffGrows(blocks: seq<seq<Ins>>, j: nat, k: nat)
    requires j <= k <= |blocks|
    ensures Off(blocks, j) <= Off(blocks, k)
  {
    if j < k {
      OffGrows(blocks, j, k - 1);
    }
  }

  lemma {:induction false} RemainingFalls(blocks: seq<seq<Ins>>, i: nat, j: nat)
    requires i <= j < |blocks|
    ensures Remaining(blocks, j) <= Remaining(blocks, i)
  {
    if i < j {
      RemainingFalls(blocks, i, j - 1);
    }
  }

  lemma {:induction false} StillLoaded(isa: Isa, mem: seq<bv8>, mem': seq<bv8>, start: nat, blocks: seq<seq<Ins>>)
    requires Sound(isa) && Loaded(isa, mem, start, blocks) && OnlyScratch(mem, mem')
    ensures Loaded(isa, mem', start, blocks)
  {
    forall i | 0 <= i < |blocks| ensures BlockIn(isa, mem', start, blocks, i) {
      assert BlockIn(isa, mem, start, blocks, i);
      OffGrows(blocks, i + 1, |blocks|);
      StillLaidOut(isa, mem, mem', start + Off(blocks, i), blocks[i]);
    }
  }

  /** Where a run stands when it is about to enter block `i`. */
  ghost predicate Entering(isa: Isa, s: State, start: nat, blocks: seq<seq<Ins>>, i: nat)
    requires i < |blocks|
  {
    Loaded(isa, s.mem, start, blocks) && s.pc == BASE + start + Off(blocks, i) && s.pc % 2 == 0
  }

  /** Running one block leads to the start of a later one. */
  lemma {:induction false} OneBlock(isa: Isa, os: nat -> Open, t: nat, s: State, start: nat, blocks: seq<seq<Ins>>, targets: seq<nat>, i: nat)
    returns (run: seq<State>, j: nat)
    requires Sound(isa) && Body(isa, blocks, targets) && i < |blocks| - 1 && Entering(isa, s, start, blocks, i)
    requires SizeOf(blocks[i]) % 2 == 0
    ensures Safe(isa, os, t, run) && run[0] == s && |run| <= |blocks[i]| + 1
    ensures i < j < |blocks| && Entering(isa, run[|run| - 1], start, blocks, j)
  {
    assert Forward(isa, blocks, targets, i) && BlockIn(isa, s.mem, start, blocks, i);
    OffGrows(blocks, i + 1, |blocks|);
    run := BlockRuns(isa, os, t, s, blocks[i], Off(blocks, targets[i]) - Off(blocks, i));
    SafeKeepsMemory(isa, os, t, run, |run| - 1);
    StillLoaded(isa, s.mem, run[|run| - 1].mem, start, blocks);
    j := WhereTo(isa, s, start, blocks, targets, i, run[|run| - 1]);
  }

  /** The state after a block is at the start of the next one, or of its target. */
  lemma {:induction false} WhereTo(isa: Isa, s: State, start: nat, blocks: seq<seq<Ins>>, targets: seq<nat>, i: nat, s': State) returns (j: nat)
    requires |targets| == |blocks| - 1 && i < |targets| && Forward(isa, blocks, targets, i) && SizeOf(blocks[i]) % 2 == 0
    requires s.pc == BASE + start + Off(blocks, i) && s.pc % 2 == 0 && Loaded(isa, s'.mem, start, blocks)
    requires s'.pc == s.pc + SizeOf(blocks[i]) || s'.pc == s.pc + (Off(blocks, targets[i]) - Off(blocks, i))
    ensures i < j < |blocks| && Entering(isa, s', start, blocks, j)
  {
    j := if s'.pc == s.pc + SizeOf(blocks[i]) then i + 1 else targets[i];
  }

  lemma {:induction false} EvenSize(v: seq<Ins>, k: nat)
    requires k <= |v|
    ensures Before(v, k) % 2 == 0
  {
    if k > 0 {
      EvenSize(v, k - 1);
    }
  }

  /** From the start of any block, whatever the registers and the scratch page hold and whatever is computed, the run reaches the last block. */
  lemma {:induction false} ReachesEnd(isa: Isa, os: nat -> Open, t: nat, s: State, start: nat, blocks: seq<seq<Ins>>, targets: seq<nat>, i: nat)
    returns (run: seq<State>)
    requires Sound(isa) && Body(isa, blocks, targets) && i < |blocks| && Entering(isa, s, start, blocks, i)
    ensures Safe(isa, os, t, run) && run[0] == s && |run| - 1 <= Remaining(blocks, i)
    ensures Entering(isa, run[|run| - 1], start, blocks, |blocks| - 1)
    decreases |blocks| - i
  {
    if i == |blocks| - 1 {
      run := [s];
    } else {
      EvenSize(blocks[i], |blocks[i]|);
      var first, j := OneBlock(isa, os, t, s, start, blocks, targets, i);
      var rest := ReachesEnd(isa, os, t + |first| - 1, first[|first| - 1], start, blocks, targets, j);
      SafeJoin(isa, os, t, first, rest);
      run := first + rest[1..];
      RemainingFalls(blocks, i + 1, j);
      assert run[|run| - 1] == rest[|rest| - 1];
    }
  }
}
