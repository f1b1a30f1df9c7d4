/** The bump heap of ocaml_stubs.c: _sbrk under its mutex and mmap on top of it, called from two cores, with 32-bit
    pointer arithmetic. One step is one locked _sbrk section or one byte of mmap's memset. */
module Heap {

  const WORD: int := 0x1_0000_0000
  /** ORIGIN(RAM) and ORIGIN(RAM) + LENGTH(RAM) of the linker script. */
  const RAM_ORIGIN: nat := 0x2000_0000
  const HEAP_LIMIT: nat := 0x2008_2000
  const CORES: nat := 2

  /** (void *)-1, which is also MAP_FAILED. */
  const FAILED: int := -1

  type Address = a: nat | a < 0x1_0000_0000
  /** ptrdiff_t and size_t of the 32-bit target. */
  type Increment = i: int | -0x8000_0000 <= i < 0x8000_0000
  type Size = n: nat | n < 0x1_0000_0000

  function AsIncrement(n: Size): Increment
  {
    if n < 0x8000_0000 then n else n - WORD
  }

  /** heap_ptr + incr */
  function Add(p: Address, incr: Increment): Address
  {
    (p + incr) % WORD
  }

  /** (length + 7) & ~7 */
  function RoundUp8(length: Size): Size
  {
    var t := (length + 7) % WORD;
    t - t % 8
  }

  /** heap_ptr once the NULL of the first call is replaced by __end__. */
  function Break(heapPtr: Address, end: Address): Address
  {
    if heapPtr == 0 then end else heapPtr
  }

  predicate Refused(heapPtr: Address, end: Address, incr: Increment)
  {
    Add(Break(heapPtr, end), incr) > HEAP_LIMIT
  }

  /** What _sbrk returns, and heap_ptr afterwards. */
  function SbrkResult(heapPtr: Address, end: Address, incr: Increment): int
  {
    if Refused(heapPtr, end, incr) then FAILED else Break(heapPtr, end)
  }

  function SbrkBreak(heapPtr: Address, end: Address, incr: Increment): Address
  {
    if Refused(heapPtr, end, incr) then Break(heapPtr, end) else Add(Break(heapPtr, end), incr)
  }

  // Two cores

  datatype Block = Block(start: nat, length: nat)

  /** A memset in progress: done bytes of the block are zero. */
  datatype Zeroing = NotZeroing | Zeroing(block: Block, done: nat)

  /** granted is history: every block any successful request returned, in order. */
  datatype State = State(
    heapPtr: Address,
    end: Address,
    memory: map<nat, int>,
    zeroing: seq<Zeroing>,
    granted: seq<Block>)

  datatype Action =
    | Sbrk(c: nat, incr: Increment)
    | Mmap(c: nat, length: Size)
    | ZeroByte(c: nat)
    | Write(k: nat, offset: nat, value: int)

  /** Requests are non-negative, and mmap lengths stay so when rounded and converted to ptrdiff_t. Owners write to
      their blocks, but not to one that mmap has not returned yet. */
  predicate Enabled(s: State, a: Action)
  {
    && |s.zeroing| == CORES
    && match a
       case Sbrk(c, incr) => c < CORES && s.zeroing[c].NotZeroing? && 0 <= incr
       case Mmap(c, length) => c < CORES && s.zeroing[c].NotZeroing? && length <= 0x7FFF_FFF8
       case ZeroByte(c) => c < CORES && s.zeroing[c].Zeroing?
       case Write(k, offset, _) =>
         k < |s.granted| && offset < s.granted[k].length &&
         forall c :: 0 <= c < CORES && s.zeroing[c].Zeroing? ==> s.zeroing[c].block != s.granted[k]
  }

  function Grant(s: State, incr: Increment): State
    requires 0 <= incr
  {
    var s' := s.(heapPtr := SbrkBreak(s.heapPtr, s.end, incr));
    if Refused(s.heapPtr, s.end, incr) then s'
    else s'.(granted := s.granted + [Block(Break(s.heapPtr, s.end), incr)])
  }

  function Step(s: State, a: Action): State
    requires Enabled(s, a)
  {
    match a
    case Sbrk(c, incr) => Grant(s, incr)
    case Mmap(c, length) =>
      var n := AsIncrement(RoundUp8(length));
      if n < 0 || Refused(s.heapPtr, s.end, n) then s.(heapPtr := Break(s.heapPtr, s.end))
      else Grant(s, n).(zeroing := s.zeroing[c := Zeroing(Block(Break(s.heapPtr, s.end), n), 0)])
    case ZeroByte(c) =>
      var z := s.zeroing[c];
      if z.done >= z.block.length then s.(zeroing := s.zeroing[c := NotZeroing])
      else s.(memory := s.memory[z.block.start + z.done := 0], zeroing := s.zeroing[c := z.(done := z.done + 1)])
    case Write(k, offset, value) => s.(memory := s.memory[s.granted[k].start + offset := value])
  }

  ghost predicate IsRun(s: State, run: seq<Action>)
    decreases |run|
  {
    run == [] || (Enabled(s, run[0]) && IsRun(Step(s, run[0]), run[1..]))
  }

  ghost function After(s: State, run: seq<Action>): State
    requires IsRun(s, run)
    decreases |run|
  {
    if run == [] then s else After(Step(s, run[0]), run[1..])
  }

  predicate Initial(s: State)
  {
    && (s.heapPtr == 0 || s.heapPtr == s.end) && RAM_ORIGIN <= s.end <= HEAP_LIMIT
    && s.zeroing == [NotZeroing, NotZeroing] && s.granted == []
  }

  function TotalLength(blocks: seq<Block>): nat
  {
    if blocks == [] then 0 else TotalLength(blocks[..|blocks| - 1]) + blocks[|blocks| - 1].length
  }

  /** The blocks lie one after the other, the first at end. */
  ghost predicate Stacked(blocks: seq<Block>, end: nat)
  {
    blocks == [] ||
    (Stacked(blocks[..|blocks| - 1], end) && blocks[|blocks| - 1].start == end + TotalLength(blocks[..|blocks| - 1]))
  }

  ghost predicate BreakOk(s: State)
  {
    && RAM_ORIGIN <= s.end && s.end + TotalLength(s.granted) == Break(s.heapPtr, s.end) <= HEAP_LIMIT
    && Stacked(s.granted, s.end)
  }

  predicate ZeroAt(memory: map<nat, int>, a: nat)
  {
    a in memory && memory[a] == 0
  }

  ghost predicate ZeroingOk(memory: map<nat, int>, granted: seq<Block>, z: Zeroing)
  {
    z.Zeroing? ==>
      && z.block in granted && z.done <= z.block.length
      && forall a :: z.block.start <= a < z.block.start + z.done ==> ZeroAt(memory, a)
  }

  predicate Disjoint(a: Block, b: Block)
  {
    a.start + a.length <= b.start || b.start + b.length <= a.start
  }

  ghost predicate Inv(s: State)
  {
    && |s.zeroing| == CORES && BreakOk(s)
    && ZeroingOk(s.memory, s.granted, s.zeroing[0]) && ZeroingOk(s.memory, s.granted, s.zeroing[1])
    && (s.zeroing[0].Zeroing? && s.zeroing[1].Zeroing? ==> Disjoint(s.zeroing[0].block, s.zeroing[1].block))
  }

  lemma {:induction false} BlockInside(blocks: seq<Block>, end: nat, k: nat)
    requires Stacked(blocks, end) && k < |blocks|
    ensures end <= blocks[k].start && blocks[k].start + blocks[k].length <= end + TotalLength(blocks)
  {
    if k < |blocks| - 1 {
      BlockInside(blocks[..|blocks| - 1], end, k);
    }
  }

  lemma {:induction false} BlocksOrdered(blocks: seq<Block>, end: nat, k: nat, l: nat)
    requires Stacked(blocks, end) && k < l < |blocks|
    ensures blocks[k].start + blocks[k].length <= blocks[l].start
  {
    if l == |blocks| - 1 {
      BlockInside(blocks[..|blocks| - 1], end, k);
    } else {
      BlocksOrdered(blocks[..|blocks| - 1], end, k, l);
    }
  }

  lemma BlocksApart(blocks: seq<Block>, end: nat, a: Block, b: Block)
    requires Stacked(blocks, end) && a in blocks && b in blocks && a != b
    ensures Disjoint(a, b)
  {
    var k :| 0 <= k < |blocks| && blocks[k] == a;
    var l :| 0 <= l < |blocks| && blocks[l] == b;
    if k < l {
      BlocksOrdered(blocks, end, k, l);
    } else {
      BlocksOrdered(blocks, end, l, k);
    }
  }

  lemma GrantKeepsBreak(s: State, incr: Increment)
    requires BreakOk(s) && 0 <= incr
    ensures BreakOk(Grant(s, incr)) && s.granted <= Grant(s, incr).granted
    ensures !Refused(s.heapPtr, s.end, incr) ==> Block(Break(s.heapPtr, s.end), incr) in Grant(s, incr).granted
  {
    var s' := Grant(s, incr);
    if !Refused(s.heapPtr, s.end, incr) {
      assert s'.granted[..|s'.granted| - 1] == s.granted;
      assert s'.granted[|s.granted|] == Block(Break(s.heapPtr, s.end), incr);
    }
  }

  lemma OldBlocksBelowBreak(s: State, b: Block)
    requires BreakOk(s) && b in s.granted
    ensures b.start + b.length <= Break(s.heapPtr, s.end)
  {
    var k :| 0 <= k < |s.granted| && s.granted[k] == b;
    BlockInside(s.granted, s.end, k);
  }

  lemma RoundingSafe(length: Size)
    requires length <= 0x7FFF_FFF8
    ensures var n := AsIncrement(RoundUp8(length)); length <= n < length + 8 && n % 8 == 0
  {
  }

  lemma ZeroingStaysOk(memory: map<nat, int>, granted: seq<Block>, granted': seq<Block>, z: Zeroing)
    requires ZeroingOk(memory, granted, z) && granted <= granted'
    ensures ZeroingOk(memory, granted', z)
  {
  }

  /** The state after a served mmap of n bytes. */
  function Mapped(s: State, c: nat, n: Increment): State
    requires 0 <= n && c < |s.zeroing|
  {
    Grant(s, n).(zeroing := s.zeroing[c := Zeroing(Block(Break(s.heapPtr, s.end), n), 0)])
  }

  lemma MmapStep(s: State, c: nat, length: Size) returns (n: Increment)
    requires Enabled(s, Mmap(c, length))
    ensures 0 <= n
    ensures Step(s, Mmap(c, length)) ==
            if Refused(s.heapPtr, s.end, n) then s.(heapPtr := Break(s.heapPtr, s.end)) else Mapped(s, c, n)
  {
    RoundingSafe(length);
    n := AsIncrement(RoundUp8(length));
  }

  lemma MmapKeepsInv(s: State, c: nat, length: Size)
    requires Inv(s) && Enabled(s, Mmap(c, length))
    ensures Inv(Step(s, Mmap(c, length)))
  {
    var n := MmapStep(s, c, length);
    MappedKeepsInv(s, c, n);
  }

  lemma MappedKeepsInv(s: State, c: nat, n: Increment)
    requires Inv(s) && c < CORES && 0 <= n
    ensures !Refused(s.heapPtr, s.end, n) ==> Inv(Mapped(s, c, n))
    ensures Inv(s.(heapPtr := Break(s.heapPtr, s.end)))
  {
    GrantKeepsBreak(s, n);
    var other := s.zeroing[1 - c];
    ZeroingStaysOk(s.memory, s.granted, Grant(s, n).granted, other);
    if other.Zeroing? {
      OldBlocksBelowBreak(s, other.block);
    }
    StartsZeroing(s, c, n);
  }

  /** A new block is disjoint from the one the other core zeroes, because that one lies below the break. */
  lemma StartsZeroing(s: State, c: nat, n: Increment)
    requires Inv(s) && c < CORES && 0 <= n && BreakOk(Grant(s, n))
    requires var other := s.zeroing[1 - c];
             ZeroingOk(s.memory, Grant(s, n).granted, other) &&
             (other.Zeroing? ==> other.block.start + other.block.length <= Break(s.heapPtr, s.end))
    ensures !Refused(s.heapPtr, s.end, n) ==> Inv(Mapped(s, c, n))
    ensures Inv(s.(heapPtr := Break(s.heapPtr, s.end)))
  {
  }

  lemma ZeroKeepsInv(s: State, c: nat)
    requires Inv(s) && Enabled(s, ZeroByte(c))
    ensures Inv(Step(s, ZeroByte(c)))
  {
    var s' := Step(s, ZeroByte(c));
    var z := s.zeroing[c];
    assert ZeroingOk(s.memory, s.granted, z) && ZeroingOk(s.memory, s.granted, s.zeroing[1 - c]);
    forall a | ZeroAt(s.memory, a) ensures ZeroAt(s'.memory, a) {
    }
    assert s'.zeroing[1 - c] == s.zeroing[1 - c];
    StillZero(s.memory, s'.memory, s.granted, s.zeroing[1 - c]);
    if z.done < z.block.length {
      assert ZeroAt(s'.memory, z.block.start + z.done);
      StillZero(s.memory, s'.memory, s.granted, z);
    }
  }

  lemma StillZero(memory: map<nat, int>, memory': map<nat, int>, granted: seq<Block>, z: Zeroing)
    requires ZeroingOk(memory, granted, z)
    requires z.Zeroing? ==>
               forall a :: z.block.start <= a < z.block.start + z.done && ZeroAt(memory, a) ==> ZeroAt(memory', a)
    ensures ZeroingOk(memory', granted, z)
  {
  }

  lemma WriteSparesZeroing(s: State, k: nat, offset: nat, value: int, c: nat)
    requires Inv(s) && Enabled(s, Write(k, offset, value)) && c < CORES
    ensures ZeroingOk(Step(s, Write(k, offset, value)).memory, s.granted, s.zeroing[c])
  {
    assert ZeroingOk(s.memory, s.granted, s.zeroing[c]);
    if s.zeroing[c].Zeroing? {
      var z := s.zeroing[c];
      BlocksApart(s.granted, s.end, z.block, s.granted[k]);
      forall a | z.block.start <= a < z.block.start + z.done
        ensures ZeroAt(Step(s, Write(k, offset, value)).memory, a)
      {
        assert ZeroAt(s.memory, a);
      }
    }
  }

  lemma StepKeepsInv(s: State, a: Action)
    requires Inv(s) && Enabled(s, a)
    ensures Inv(Step(s, a)) && Step(s, a).end == s.end
  {
    match a
    case Sbrk(c, incr) => GrantKeepsBreak(s, incr);
    case Mmap(c, length) => MmapKeepsInv(s, c, length);
    case ZeroByte(c) => ZeroKeepsInv(s, c);
    case Write(k, offset, value) =>
      WriteSparesZeroing(s, k, offset, value, 0);
      WriteSparesZeroing(s, k, offset, value, 1);
  }

  lemma {:induction false} RunKeepsInv(s: State, run: seq<Action>)
    requires Inv(s) && IsRun(s, run)
    ensures Inv(After(s, run)) && After(s, run).end == s.end
    decreases |run|
  {
    if run != [] {
      StepKeepsInv(s, run[0]);
      RunKeepsInv(Step(s, run[0]), run[1..]);
    }
  }

  // Main results

  /** Over every interleaving of the two cores, each block ever granted lies in the heap, any two are disjoint, the
      earlier below the later, and the lengths of all add up to how far the break has moved. */
  lemma BlocksNeverOverlap(s0: State, run: seq<Action>)
    requires Initial(s0) && IsRun(s0, run)
    ensures var s := After(s0, run); var blocks := s.granted;
            && TotalLength(blocks) == Break(s.heapPtr, s.end) - s.end
            && (forall k :: 0 <= k < |blocks| ==>
                  && s.end <= blocks[k].start
                  && blocks[k].start + blocks[k].length <= Break(s.heapPtr, s.end) <= HEAP_LIMIT)
            && (forall k, l :: 0 <= k < l < |blocks| ==> blocks[k].start + blocks[k].length <= blocks[l].start)
  {
    RunKeepsInv(s0, run);
    var s := After(s0, run);
    forall k | 0 <= k < |s.granted|
      ensures s.end <= s.granted[k].start && s.granted[k].start + s.granted[k].length <= Break(s.heapPtr, s.end)
    {
      BlockInside(s.granted, s.end, k);
    }
    forall k, l | 0 <= k < l < |s.granted| ensures s.granted[k].start + s.granted[k].length <= s.granted[l].start {
      BlocksOrdered(s.granted, s.end, k, l);
    }
  }

  /** Zeroing writes inside its own block only: no byte of any other granted block changes. */
  lemma ZeroingTouchesNoOtherBlock(s0: State, run: seq<Action>, c: nat, b: Block, offset: nat)
    requires Initial(s0) && IsRun(s0, run) && Enabled(After(s0, run), ZeroByte(c))
    requires var s := After(s0, run);
             b in s.granted && b != s.zeroing[c].block && offset < b.length && b.start + offset in s.memory
    ensures var s := After(s0, run); var s' := Step(s, ZeroByte(c));
            b.start + offset in s'.memory && s'.memory[b.start + offset] == s.memory[b.start + offset]
  {
    RunKeepsInv(s0, run);
    var s := After(s0, run);
    assert ZeroingOk(s.memory, s.granted, s.zeroing[c]);
    BlocksApart(s.granted, s.end, b, s.zeroing[c].block);
  }

  /** mmap returns zeroed memory: when a core finishes its memset every byte of the block is zero, whatever the other
      core and the owners of other blocks did meanwhile. */
  lemma MappedMemoryIsZero(s0: State, run: seq<Action>, c: nat, offset: nat)
    requires Initial(s0) && IsRun(s0, run) && Enabled(After(s0, run), ZeroByte(c))
    requires Step(After(s0, run), ZeroByte(c)).zeroing[c].NotZeroing?
    requires offset < After(s0, run).zeroing[c].block.length
    ensures ZeroAt(After(s0, run).memory, After(s0, run).zeroing[c].block.start + offset)
  {
    RunKeepsInv(s0, run);
    assert ZeroingOk(After(s0, run).memory, After(s0, run).granted, After(s0, run).zeroing[c]);
  }

  /** What a request asks of _sbrk. */
  function Asked(a: Action): Increment
    requires a.Sbrk? || a.Mmap?
  {
    if a.Sbrk? then a.incr else AsIncrement(RoundUp8(a.length))
  }

  /** In every reachable state a request is refused if and only if it does not fit below the heap limit; then nothing
      is granted, written or moved, and otherwise exactly one block of the size asked for is granted, at the break. */
  lemma RefusedIffNoRoom(s0: State, run: seq<Action>, a: Action)
    requires Initial(s0) && IsRun(s0, run) && Enabled(After(s0, run), a) && (a.Sbrk? || a.Mmap?)
    ensures var s := After(s0, run); var s' := Step(s, a); var brk := Break(s.heapPtr, s.end); var n := Asked(a);
            if brk + n > HEAP_LIMIT
            then s' == s.(heapPtr := brk)
            else
              && n >= 0 && s'.granted == s.granted + [Block(brk, n)]
              && Break(s'.heapPtr, s'.end) == brk + n && s'.memory == s.memory
  {
    RunKeepsInv(s0, run);
    AskedIsNatural(After(s0, run), a);
    ExactBreak(After(s0, run), Asked(a));
  }

  lemma AskedIsNatural(s: State, a: Action)
    requires Enabled(s, a) && (a.Sbrk? || a.Mmap?)
    ensures Asked(a) >= 0
  {
    if a.Mmap? {
      RoundingSafe(a.length);
    }
  }

  /** No wrap-around hides a lack of room. */
  lemma ExactBreak(s: State, n: Increment)
    requires BreakOk(s) && 0 <= n
    ensures var brk := Break(s.heapPtr, s.end);
            && (Refused(s.heapPtr, s.end, n) <==> brk + n > HEAP_LIMIT)
            && SbrkBreak(s.heapPtr, s.end, n) == (if brk + n > HEAP_LIMIT then brk else brk + n)
            && Break(SbrkBreak(s.heapPtr, s.end, n), s.end) == SbrkBreak(s.heapPtr, s.end, n)
  {
    NoWrap(Break(s.heapPtr, s.end), n);
  }

  lemma NoWrap(p: Address, n: Increment)
    requires 0 <= n && p <= HEAP_LIMIT
    ensures Add(p, n) == p + n
  {
  }

  /** The bound on mmap lengths is exact: among the lengths _sbrk does not refuse, the block handed out has room for
      the request if and only if rounding and the conversion to ptrdiff_t leave it non-negative. */
  lemma MmapServesIff(heapPtr: Address, end: Address, length: Size)
    requires RAM_ORIGIN <= end && end <= Break(heapPtr, end) <= HEAP_LIMIT
    requires !Refused(heapPtr, end, AsIncrement(RoundUp8(length)))
    ensures var n := AsIncrement(RoundUp8(length));
            SbrkResult(heapPtr, end, n) + length <= SbrkBreak(heapPtr, end, n) <==> length <= 0x7FFF_FFF8
  {
    if length > 0x7FFF_FFF8 && length <= 0xFFFF_FFF8 {
      assert RoundUp8(length) >= 0x8000_0000;
    }
  }

  /** And beyond it the break can move backwards into blocks already granted. */
  lemma OversizedMmapMovesBreakBack()
    ensures var end := RAM_ORIGIN; var brk := RAM_ORIGIN + 0x1000;
            SbrkResult(brk, end, AsIncrement(RoundUp8(0xFFFF_F800))) == brk &&
            SbrkBreak(brk, end, AsIncrement(RoundUp8(0xFFFF_F800))) == brk - 0x800
  {
  }

  // The allocator as the source has it

  class Allocator {
    var heapPtr: Address
    const end: Address
    /** RAM, one cell per byte. */
    const ram: array<int>

    ghost predicate Valid()
      reads this
    {
      RAM_ORIGIN <= end && end <= Break(heapPtr, end) <= HEAP_LIMIT && ram.Length == HEAP_LIMIT - RAM_ORIGIN
    }

    constructor (end: Address)
      requires RAM_ORIGIN <= end <= HEAP_LIMIT
      ensures Valid() && fresh(ram) && this.end == end && heapPtr == 0
    {
      this.end := end;
      heapPtr := 0;
      ram := new int[HEAP_LIMIT - RAM_ORIGIN];
    }

    /** Any increment, negative ones included. */
    method Sbrk(incr: Increment) returns (result: int)
      modifies this`heapPtr
      ensures result == SbrkResult(old(heapPtr), end, incr) && heapPtr == SbrkBreak(old(heapPtr), end, incr)
    {
      if heapPtr == 0 {
        heapPtr := end;
      }
      var prevHeap := heapPtr;
      var newHeap := Add(heapPtr, incr);
      if newHeap > HEAP_LIMIT {
        return FAILED;
      }
      heapPtr := newHeap;
      result := prevHeap;
    }

    /** mmap of a request that _sbrk can serve or refuse: MAP_FIXED is echoed; otherwise a zeroed block of its own, or
        MAP_FAILED and no byte changed. */
    method Mmap(addr: Address, length: Size, fixed: bool) returns (result: int)
      requires Valid() && length <= 0x7FFF_FFF8
      modifies this`heapPtr, ram
      ensures Valid() && Break(heapPtr, end) >= Break(old(heapPtr), end)
      ensures addr != 0 && fixed ==> result == addr && heapPtr == old(heapPtr) && ram[..] == old(ram[..])
      ensures !(addr != 0 && fixed) ==> result == SbrkResult(old(heapPtr), end, AsIncrement(RoundUp8(length)))
      ensures !(addr != 0 && fixed) && result == FAILED ==>
                Break(heapPtr, end) == Break(old(heapPtr), end) && ram[..] == old(ram[..])
      ensures !(addr != 0 && fixed) && result != FAILED ==>
                result == Break(old(heapPtr), end) && result + length <= Break(heapPtr, end)
      ensures !(addr != 0 && fixed) && result != FAILED ==>
                forall i :: 0 <= i < ram.Length ==>
                  ram[i] == if result <= RAM_ORIGIN + i < Break(heapPtr, end) then 0 else old(ram[i])
    {
      if addr != 0 && fixed {
        return addr;
      }
      RoundingSafe(length);
      var rounded := RoundUp8(length);
      result := Sbrk(AsIncrement(rounded));
      if result != FAILED {
        for i := 0 to rounded
          modifies ram
          invariant forall j :: 0 <= j < ram.Length ==>
                      ram[j] == if result <= RAM_ORIGIN + j < result + i then 0 else old(ram[j])
        {
          ram[result + i - RAM_ORIGIN] := 0;
        }
      }
    }
  }
}
