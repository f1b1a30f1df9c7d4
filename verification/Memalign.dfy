/** posix_memalign of ocaml_stubs.c: an aligned block inside a larger malloc block, with the malloc pointer stored just
    below it. The mask ~(alignment - 1) is bitwise, on 32-bit words. */
module Memalign {
  import opened Arithmetic

  const WORD: int := 0x1_0000_0000
  const WIDTH: nat := 32
  const WORD_BYTES: int := 4
  const ENOMEM: int := 12

  type Word = n: nat | n < 0x1_0000_0000

  // Bits

  /** a & b */
  function And(a: nat, b: nat): nat
  {
    if a == 0 then 0 else 2 * And(a / 2, b / 2) + (a % 2) * (b % 2)
  }

  /** ~a on words of the given width. */
  function Not(a: nat, width: nat): nat
  {
    if width == 0 then 0 else 2 * Not(a / 2, width - 1) + 1 - a % 2
  }

  function Pow2(k: nat): (p: nat)
    ensures p >= 1
  {
    if k == 0 then 1 else 2 * Pow2(k - 1)
  }

  predicate IsPowerOfTwo(a: nat)
  {
    a == 1 || (a > 1 && a % 2 == 0 && IsPowerOfTwo(a / 2))
  }

  lemma {:induction false} AndNotZero(x: nat, width: nat)
    requires x < Pow2(width)
    ensures And(x, Not(0, width)) == x
  {
    if width > 0 && x > 0 {
      AndNotZero(x / 2, width - 1);
    }
  }

  lemma {:induction false} AndNotItself(x: nat, width: nat)
    ensures And(x, Not(x, width)) == 0
  {
    if width > 0 && x > 0 {
      AndNotItself(x / 2, width - 1);
    } else if x > 0 {
      AndZero(x);
    }
  }

  lemma {:induction false} AndZero(x: nat)
    ensures And(x, 0) == 0
  {
    if x > 0 {
      AndZero(x / 2);
    }
  }

  lemma RemainderOfDouble(x: nat, p: nat)
    requires p > 0
    ensures x % (2 * p) == 2 * (x / 2 % p) + x % 2
  {
    var q, r := x / 2 / p, x / 2 % p;
    assert x / 2 == q * p + r;
    assert x == 2 * (x / 2) + x % 2;
    assert x == q * (2 * p) + (2 * r + x % 2) by {
      assert q * (2 * p) == 2 * (q * p);
    }
    DivModUnique(x, 2 * p, q, 2 * r + x % 2);
  }

  /** Masking with ~(a - 1) for an even a clears the lowest bit and masks the others with ~(a / 2 - 1). */
  lemma MaskHalves(x: nat, half: nat, width: nat)
    requires half > 0 && width > 0
    ensures And(x, Not(2 * half - 1, width)) == 2 * And(x / 2, Not(half - 1, width - 1))
  {
    var mask := Not(half - 1, width - 1);
    assert (2 * half - 1) / 2 == half - 1 && (2 * half - 1) % 2 == 1;
    assert Not(2 * half - 1, width) == 2 * mask;
    assert (2 * mask) / 2 == mask && (2 * mask) % 2 == 0;
  }

  /** Masking with ~(a - 1) rounds down to a multiple of a, for every power of two. */
  lemma {:induction false} MaskRoundsDown(x: nat, a: nat, width: nat)
    requires IsPowerOfTwo(a) && x < Pow2(width)
    ensures And(x, Not(a - 1, width)) == x - x % a
    decreases a
  {
    if a == 1 {
      AndNotZero(x, width);
      assert x % 1 == 0;
    } else if x == 0 {
      DivModUnique(0, a, 0, 0);
    } else {
      var half := a / 2;
      MaskRoundsDown(x / 2, half, width - 1);
      MaskHalves(x, half, width);
      RemainderOfDouble(x, half);
      assert a == 2 * half;
    }
  }

  /** The mask of an alignment that is no power of two loses bits even of the alignment itself. */
  lemma {:induction false} MaskBreaksOthers(a: nat, width: nat)
    requires 0 < a < Pow2(width) && !IsPowerOfTwo(a)
    ensures And(a, Not(a - 1, width)) < a
  {
    if a % 2 == 0 {
      MaskBreaksOthers(a / 2, width - 1);
      MaskHalves(a, a / 2, width);
    } else {
      MaskOfOdd(a / 2, width);
      assert a == 2 * (a / 2) + 1;
    }
  }

  lemma MaskOfOdd(half: nat, width: nat)
    requires width > 0
    ensures And(2 * half + 1, Not(2 * half, width)) == 1
  {
    var mask := Not(half, width - 1);
    assert Not(2 * half, width) == 2 * mask + 1;
    assert (2 * mask + 1) / 2 == mask && (2 * mask + 1) % 2 == 1;
    AndNotItself(half, width - 1);
  }

  /** The mask rounds down if and only if the alignment is a power of two. */
  lemma MaskRoundsDownIff(a: Word)
    requires a > 0
    ensures (forall x: Word :: And(x, Not(a - 1, WIDTH)) == x - x % a) <==> IsPowerOfTwo(a)
  {
    WordsAreBelowPow2();
    if IsPowerOfTwo(a) {
      forall x: Word ensures And(x, Not(a - 1, WIDTH)) == x - x % a {
        MaskRoundsDown(x, a, WIDTH);
      }
    } else {
      MaskBreaksOthers(a, WIDTH);
      assert a % a == 0;
    }
  }

  lemma WordsAreBelowPow2()
    ensures Pow2(WIDTH) == WORD && Pow2(31) == 0x8000_0000
  {
    assert Pow2(8) == 256;
    assert Pow2(16) == 0x1_0000;
    assert Pow2(24) == 0x100_0000;
    assert Pow2(31) == 0x8000_0000;
  }

  // The allocator

  /** Unsigned arithmetic on words wraps. */
  function Low32(x: nat): Word
  {
    x % WORD
  }

  function Effective(alignment: Word): Word
  {
    if alignment < WORD_BYTES then WORD_BYTES else alignment
  }

  /** What is asked of malloc. */
  function Request(alignment: Word, size: Word): Word
  {
    Low32(size + Effective(alignment) + WORD_BYTES)
  }

  /** The caller's bytes, the alignment or a word, and the stored pointer do not fit into a word-sized count. */
  predicate Wraps(alignment: Word, size: Word)
  {
    size + alignment + WORD_BYTES >= WORD || size + WORD_BYTES + WORD_BYTES >= WORD
  }

  /** What POSIX asks of an alignment, and the small ones that the routine raises to a word. */
  predicate Supported(alignment: Word)
  {
    IsPowerOfTwo(alignment) || alignment < WORD_BYTES
  }

  function Aligned(alignment: Word, raw: Word): Word
  {
    var addr := Low32(raw + WORD_BYTES);
    Masked(Low32(addr + Effective(alignment) - 1), Effective(alignment))
  }

  /** x & ~(a - 1) */
  function Masked(x: Word, a: Word): (r: Word)
    requires a > 0
    ensures r <= x
  {
    AndShrinks(x, Not(a - 1, WIDTH));
    And(x, Not(a - 1, WIDTH))
  }

  lemma {:induction false} AndShrinks(a: nat, b: nat)
    ensures And(a, b) <= a
  {
    if a > 0 {
      AndShrinks(a / 2, b / 2);
    }
  }

  /** malloc's block has room for the caller's bytes if and only if the request did not wrap. */
  lemma RoomIff(alignment: Word, size: Word)
    requires Supported(alignment)
    ensures Request(alignment, size) >= size <==> !Wraps(alignment, size)
  {
    WordsAreBelowPow2();
    if Effective(alignment) > 0x8000_0000 {
      assert !IsPowerOfTwo(Effective(alignment)) by { NoPowerBetween(Effective(alignment), 31); }
    }
  }

  lemma {:induction false} NoPowerBetween(a: nat, k: nat)
    requires Pow2(k) < a < 2 * Pow2(k)
    ensures !IsPowerOfTwo(a)
  {
    if k > 0 && a % 2 == 0 {
      NoPowerBetween(a / 2, k - 1);
    }
  }

  /** For every size and every power-of-two alignment whose request does not wrap: the address is a multiple of the
      caller's alignment and of a word, and the stored pointer and the caller's bytes lie inside the malloc block, the
      one below the other. */
  lemma AlignedBlockInside(alignment: Word, size: Word, raw: Word)
    requires Supported(alignment) && !Wraps(alignment, size) && raw + Request(alignment, size) <= WORD
    ensures var p := Aligned(alignment, raw);
            && (IsPowerOfTwo(alignment) ==> p % alignment == 0) && p % WORD_BYTES == 0
            && raw <= p - WORD_BYTES && p + size <= raw + Request(alignment, size)
  {
    RequestWithoutWrap(alignment, size);
    AlignedPointer(alignment, raw);
    if IsPowerOfTwo(alignment) && alignment < WORD_BYTES {
      SmallAlignments(alignment, Aligned(alignment, raw));
    }
  }

  lemma RequestWithoutWrap(alignment: Word, size: Word)
    requires !Wraps(alignment, size)
    ensures Request(alignment, size) == size + Effective(alignment) + WORD_BYTES
  {
    Low32OfWord(size + Effective(alignment) + WORD_BYTES);
  }

  lemma AlignedPointer(alignment: Word, raw: Word)
    requires Supported(alignment) && raw + WORD_BYTES + Effective(alignment) <= WORD
    ensures var p := Aligned(alignment, raw); var a := Effective(alignment);
            p % a == 0 && p % WORD_BYTES == 0 && raw + WORD_BYTES <= p < raw + WORD_BYTES + a
  {
    var a := Effective(alignment);
    AlignedWithoutWrap(alignment, raw);
    assert IsPowerOfTwo(a);
    var q, r := MaskedDivides(raw + WORD_BYTES + a - 1, a);
    MultipleIsAligned(q, a);
  }

  /** A multiple of a word is a multiple of every smaller power of two. */
  lemma SmallAlignments(alignment: Word, p: nat)
    requires IsPowerOfTwo(alignment) && alignment < WORD_BYTES && p % WORD_BYTES == 0
    ensures p % alignment == 0
  {
    assert alignment == 1 || alignment == 2;
  }

  lemma AlignedWithoutWrap(alignment: Word, raw: Word)
    requires raw + WORD_BYTES + Effective(alignment) - 1 < WORD
    ensures Aligned(alignment, raw) == Masked(raw + WORD_BYTES + Effective(alignment) - 1, Effective(alignment))
  {
    Low32OfWord(raw + WORD_BYTES);
    Low32OfWord(raw + WORD_BYTES + Effective(alignment) - 1);
  }

  lemma Low32OfWord(x: Word)
    ensures Low32(x) == x
  {
  }

  lemma MaskedDivides(x: Word, a: Word) returns (q: nat, r: nat)
    requires IsPowerOfTwo(a)
    ensures Masked(x, a) == x - r == q * a && r < a
  {
    WordsAreBelowPow2();
    MaskRoundsDown(x, a, WIDTH);
    q := Divide(x, a);
    r := x % a;
  }

  lemma Divide(x: nat, a: nat) returns (q: nat)
    requires a > 0
    ensures 0 <= x % a < a && x - x % a == q * a
  {
    q := x / a;
    assert q * a + x % a == x;
  }

  lemma MultipleIsAligned(q: nat, a: nat)
    requires IsPowerOfTwo(a) && a >= WORD_BYTES
    ensures (q * a) % a == 0 && (q * a) % WORD_BYTES == 0
  {
    DivModUnique(q * a, a, q, 0);
    PowersAreWordAligned(a, q);
  }

  lemma PowersAreWordAligned(a: nat, q: nat)
    requires IsPowerOfTwo(a) && a >= WORD_BYTES
    ensures (q * a) % WORD_BYTES == 0
  {
    assert a == 4 * (a / 4);
    assert q * a == (q * (a / 4)) * WORD_BYTES;
    DivModUnique(q * a, WORD_BYTES, q * (a / 4), 0);
  }

  /** The routine, over the words of the address space; raw is what malloc returned for Request(alignment, size). */
  method PosixMemalign(memory: array<Word>, alignment: Word, size: Word, raw: Word) returns (status: int, ptr: Word)
    requires memory.Length == WORD / WORD_BYTES
    requires raw != 0 ==> raw + Request(alignment, size) <= WORD
    modifies memory
    ensures raw == 0 ==> status == ENOMEM && memory[..] == old(memory[..])
    ensures raw != 0 ==> status == 0 && memory[..] == old(memory[..])[(ptr - WORD_BYTES) % WORD / WORD_BYTES := raw]
    ensures raw != 0 && Supported(alignment) && !Wraps(alignment, size) ==>
              && (IsPowerOfTwo(alignment) ==> ptr % alignment == 0) && ptr % WORD_BYTES == 0
              && raw + WORD_BYTES <= ptr && ptr + size <= raw + Request(alignment, size)
  {
    if raw == 0 {
      return ENOMEM, 0;
    }
    ptr := Aligned(alignment, raw);
    memory[(ptr - WORD_BYTES) % WORD / WORD_BYTES] := raw;
    status := 0;
    if Supported(alignment) && !Wraps(alignment, size) {
      AlignedBlockInside(alignment, size, raw);
    }
  }
}
