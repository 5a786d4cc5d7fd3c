/**
 Guest physical memory behind the bus: RAM, and the timer and UART windows, which
 take stores of their own and leave RAM alone.
 */
module Memory {
  import opened Bytes
  import opened Wrappers

  const PAGE_SIZE: nat := 4096
  const RAM_BASE: nat := 0x8000_0000
  const RAM_SIZE: nat := 0x0200_0000
  const RAM_END: nat := 0x8200_0000
  const CLINT_BASE: nat := 0x0200_0000
  const CLINT_SIZE: nat := 0x0001_0000
  const UART_BASE: nat := 0x1000_0000
  const UART_SIZE: nat := 0x100
  const U64: nat := 0x1_0000_0000_0000_0000

  type Ram = s: seq<byte> | |s| == RAM_SIZE witness seq(RAM_SIZE, _ => 0)

  datatype Fault = LoadAccess(addr: nat) | StoreAccess(addr: nat)

  predicate InRam(addr: nat, n: nat) {
    RAM_BASE <= addr && addr + n <= RAM_END
  }

  predicate InDevice(addr: nat, n: nat) {
    || (CLINT_BASE <= addr && addr + n <= CLINT_BASE + CLINT_SIZE)
    || (UART_BASE <= addr && addr + n <= UART_BASE + UART_SIZE)
  }

  predicate Width(n: nat) {
    n == 1 || n == 2 || n == 4 || n == 8
  }

  /** `n` bytes of RAM. */
  function Peek(ram: Ram, addr: nat, n: nat): (b: seq<byte>)
    requires InRam(addr, n)
    ensures |b| == n
  {
    ram[addr - RAM_BASE..addr - RAM_BASE + n]
  }

  /** RAM with a run of bytes laid over it. */
  function Poke(ram: Ram, addr: nat, data: seq<byte>): (r: Ram)
    requires InRam(addr, |data|)
    ensures forall a :: 0 <= a < RAM_SIZE ==>
              r[a] == if addr - RAM_BASE <= a < addr - RAM_BASE + |data| then data[a - (addr - RAM_BASE)] else ram[a]
  {
    var off := addr - RAM_BASE;
    ram[..off] + data + ram[off + |data|..]
  }

  /** What a run of stores from `addr` upwards leaves, whether or not it gets to the end. */
  function Laid(ram: Ram, addr: nat, data: seq<byte>): Ram {
    if addr < RAM_BASE || addr >= RAM_END then ram
    else if addr + |data| <= RAM_END then Poke(ram, addr, data)
    else Poke(ram, addr, data[..RAM_END - addr])
  }

  /** The runs of stores that get to the end. */
  predicate Placeable(addr: nat, n: nat) {
    n == 0 || InRam(addr, n) || InDevice(addr, n)
  }

  /** Where a run of stores that does not fit stops. */
  function FirstUnmapped(addr: nat): nat {
    if RAM_BASE <= addr < RAM_END then RAM_END
    else if CLINT_BASE <= addr < CLINT_BASE + CLINT_SIZE then CLINT_BASE + CLINT_SIZE
    else if UART_BASE <= addr < UART_BASE + UART_SIZE then UART_BASE + UART_SIZE
    else addr
  }

  lemma {:induction false} PeekInside(ram: Ram, addr: nat, data: seq<byte>, at: nat, n: nat)
    requires InRam(addr, |data|) && addr <= at && at + n <= addr + |data|
    ensures Peek(Poke(ram, addr, data), at, n) == data[at - addr..at - addr + n]
  {
    var r, off := Poke(ram, addr, data), at - RAM_BASE;
    forall k | off <= k < off + n ensures r[k] == data[k - (addr - RAM_BASE)] {
    }
    assert r[off..off + n] == data[at - addr..at - addr + n];
  }

  lemma {:induction false} PeekOutside(ram: Ram, addr: nat, data: seq<byte>, at: nat, n: nat)
    requires InRam(addr, |data|) && InRam(at, n) && (at + n <= addr || addr + |data| <= at)
    ensures Peek(Poke(ram, addr, data), at, n) == Peek(ram, at, n)
  {
    var r, off := Poke(ram, addr, data), at - RAM_BASE;
    forall k | off <= k < off + n ensures r[k] == ram[k] {
    }
    assert r[off..off + n] == ram[off..off + n];
  }

  class Bus {
    var ram: Ram

    constructor (ram: Ram)
      ensures this.ram == ram
    {
      this.ram := ram;
    }

    method Load(addr: nat, size: nat) returns (r: Result<nat, Fault>)
      ensures !Width(size) ==> r == Error(LoadAccess(addr))
      ensures Width(size) && InRam(addr, size) ==> r == Ok(FromLE(Peek(ram, addr, size)))
      ensures Width(size) && !InRam(addr, size) && !InDevice(addr, size) ==> r == Error(LoadAccess(addr))
    {
      if !Width(size) {
        return Error(LoadAccess(addr));
      }
      if InRam(addr, size) {
        return Ok(FromLE(Peek(ram, addr, size)));
      }
      if InDevice(addr, size) {
        var v: int := *;
        return Ok(if v < 0 then 0 else v);
      }
      return Error(LoadAccess(addr));
    }

    method Store(addr: nat, size: nat, value: nat) returns (r: Result<(), Fault>)
      modifies this
      ensures r.Error? <==> !Width(size) || !(InRam(addr, size) || InDevice(addr, size))
      ensures r.Error? ==> r == Error(StoreAccess(addr))
      ensures ram == if Width(size) && InRam(addr, size) then Poke(old(ram), addr, ToLE(value, size)) else old(ram)
    {
      if !Width(size) {
        return Error(StoreAccess(addr));
      }
      if InRam(addr, size) {
        ram := Poke(ram, addr, ToLE(value, size));
        return Ok(());
      }
      if InDevice(addr, size) {
        return Ok(());
      }
      return Error(StoreAccess(addr));
    }

    /** One store of a run: a word of the blob, or a byte. */
    method StoreNext(ghost was: Ram, addr: nat, data: seq<byte>, off: nat, n: nat) returns (r: Result<(), Fault>)
      requires off + n <= |data| && (n == 1 || (n == 8 && (addr + off) % 8 == 0)) && Placeable(addr, off)
      requires ram == Laid(was, addr, data[..off])
      modifies this
      ensures r.Ok? ==> Placeable(addr, off + n) && ram == Laid(was, addr, data[..off + n])
      ensures r.Error? ==> !Placeable(addr, |data|) && r == Error(StoreAccess(FirstUnmapped(addr))) && ram == Laid(was, addr, data)
    {
      var word := if n == 8 then FromLE(data[off..off + 8]) else data[off] as nat;
      WordBytes(data, off, n, word);
      StoreFollows(was, addr, data, off, n);
      r := Store(addr + off, n, word);
    }

    /** Stores a blob, a word at a time where it can: the whole memory effect, on every outcome. */
    method WriteBlob(addr: nat, data: seq<byte>) returns (r: Result<(), Fault>)
      modifies this
      ensures r == if Placeable(addr, |data|) then Ok(()) else Error(StoreAccess(FirstUnmapped(addr)))
      ensures ram == Laid(old(ram), addr, data)
    {
      var off := 0;
      while off < |data|
        invariant off <= |data| && Placeable(addr, off)
        invariant ram == Laid(old(ram), addr, data[..off])
      {
        var n := if (addr + off) % 8 == 0 && |data| - off >= 8 then 8 else 1;
        var stored := StoreNext(old(ram), addr, data, off, n);
        if stored.Error? {
          return stored;
        }
        off := off + n;
      }
      assert data[..off] == data;
      return Ok(());
    }
  }

  /** One store further: within a window it joins on to the run so far, and outside every window the run is over. */
  lemma {:induction false} StoreFollows(ram: Ram, addr: nat, data: seq<byte>, off: nat, n: nat)
    requires off + n <= |data| && (n == 1 || (n == 8 && (addr + off) % 8 == 0)) && Placeable(addr, off)
    ensures InRam(addr + off, n) ==>
              InRam(addr, off + n) && Poke(Laid(ram, addr, data[..off]), addr + off, data[off..off + n]) == Laid(ram, addr, data[..off + n])
    ensures InDevice(addr + off, n) ==>
              InDevice(addr, off + n) && !InRam(addr + off, n) && Laid(ram, addr, data[..off]) == Laid(ram, addr, data[..off + n])
    ensures !InRam(addr + off, n) && !InDevice(addr + off, n) ==>
              !Placeable(addr, |data|) && addr + off == FirstUnmapped(addr) && Laid(ram, addr, data[..off]) == Laid(ram, addr, data)
  {
    if InRam(addr + off, n) {
      PokeFollows(ram, addr, data, off, n);
    } else if !InDevice(addr + off, n) {
      RunIsOver(ram, addr, data, off, n);
    }
  }

  lemma {:induction false} PokeFollows(ram: Ram, addr: nat, data: seq<byte>, off: nat, n: nat)
    requires off + n <= |data| && InRam(addr + off, n) && InRam(addr, off)
    ensures Poke(Poke(ram, addr, data[..off]), addr + off, data[off..off + n]) == Poke(ram, addr, data[..off + n])
  {
    var a := Poke(Poke(ram, addr, data[..off]), addr + off, data[off..off + n]);
    var b := Poke(ram, addr, data[..off + n]);
    assert forall k :: 0 <= k < RAM_SIZE ==> a[k] == b[k];
  }

  lemma {:induction false} RunIsOver(ram: Ram, addr: nat, data: seq<byte>, off: nat, n: nat)
    requires off + n <= |data| && (n == 1 || (n == 8 && (addr + off) % 8 == 0)) && Placeable(addr, off)
    requires !InRam(addr + off, n) && !InDevice(addr + off, n)
    ensures !Placeable(addr, |data|) && addr + off == FirstUnmapped(addr) && Laid(ram, addr, data[..off]) == Laid(ram, addr, data)
  {
    if RAM_BASE <= addr < RAM_END {
      assert addr + off == RAM_END;
      assert data[..off] == data[..RAM_END - addr];
    }
  }

  lemma {:induction false} WordBytes(data: seq<byte>, off: nat, n: nat, word: nat)
    requires off + n <= |data|
    requires (n == 8 && word == FromLE(data[off..off + 8])) || (n == 1 && word == data[off] as nat)
    ensures ToLE(word, n) == data[off..off + n]
  {
    if n == 8 {
      ToFromLE(data[off..off + 8]);
    } else {
      assert ToLE(word, 1) == [(word % 256) as byte] + ToLE(word / 256, 0);
    }
  }
}
