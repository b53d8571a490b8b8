/** `utils.valid_icon_size`: icon sizes are powers of two from 16 to 4096, or
    one of a fixed list of additional sizes. */
module IconSize {

  const ADDITIONAL_SIZES: seq<int> :=
    [20, 22, 24, 28, 40, 44, 48, 56, 60, 80, 96, 100, 160, 240, 300, 320, 480, 600, 640, 1280, 1536, 3072]

  const POWER_OF_TWO_SIZES: seq<int> := [16, 32, 64, 128, 256, 512, 1024, 2048, 4096]

  /** Python's `a & b` on non-negative ints, bit by bit from the lowest. */
  function BitAnd(a: nat, b: nat): nat
    decreases a
  {
    if a == 0 || b == 0 then 0
    else 2 * BitAnd(a / 2, b / 2) + (if a % 2 == 1 && b % 2 == 1 then 1 else 0)
  }

  ghost predicate IsPowerOfTwo(x: nat) {
    x == 1 || (x > 1 && x % 2 == 0 && IsPowerOfTwo(x / 2))
  }

  /** `(not size & (size - 1) and 4096 >= size >= 16) or size in ADDITIONAL_SIZES`.
      The bit test only decides the answer inside 16..4096. */
  predicate ValidIconSize(size: int) {
    || (16 <= size <= 4096 && BitAnd(size, size - 1) == 0)
    || size in ADDITIONAL_SIZES
  }

  lemma {:induction false} BitAndSelf(a: nat)
    ensures BitAnd(a, a) == a
  {
    if a != 0 {
      BitAndSelf(a / 2);
    }
  }

  /** `x & (x - 1)` clears the lowest set bit, so it is zero exactly for powers of two. */
  lemma {:induction false} ClearLowestBit(x: nat)
    requires x >= 1
    ensures BitAnd(x, x - 1) == 0 <==> IsPowerOfTwo(x)
    decreases x
  {
    if x > 1 {
      var y := x / 2;
      if x % 2 == 0 {
        assert (x - 1) / 2 == y - 1;
        assert BitAnd(x, x - 1) == 2 * BitAnd(y, y - 1);
        ClearLowestBit(y);
      } else {
        assert (x - 1) / 2 == y;
        assert BitAnd(x, x - 1) == 2 * BitAnd(y, y);
        BitAndSelf(y);
      }
    }
  }

  /** A power of two up to 4096 is one of 1, 2, 4, ..., 4096. */
  lemma {:induction false} SmallPowers(x: nat)
    requires IsPowerOfTwo(x) && x <= 4096
    ensures x in [1, 2, 4, 8] + POWER_OF_TWO_SIZES
    decreases x
  {
    if x != 1 {
      SmallPowers(x / 2);
    }
  }

  lemma ListedArePowers()
    ensures forall k :: 0 <= k < |POWER_OF_TWO_SIZES| ==> IsPowerOfTwo(POWER_OF_TWO_SIZES[k])
  {
    assert IsPowerOfTwo(1);
    assert IsPowerOfTwo(2);
    assert IsPowerOfTwo(4);
    assert IsPowerOfTwo(8);
    assert IsPowerOfTwo(16);
    assert IsPowerOfTwo(32);
    assert IsPowerOfTwo(64);
    assert IsPowerOfTwo(128);
    assert IsPowerOfTwo(256);
    assert IsPowerOfTwo(512);
    assert IsPowerOfTwo(1024);
    assert IsPowerOfTwo(2048);
    assert IsPowerOfTwo(4096);
  }

  /** The accepted sizes are exactly the powers of two from 16 to 4096 and
      the additional sizes. */
  lemma ValidIconSizeIff(size: int)
    ensures ValidIconSize(size) <==> size in POWER_OF_TWO_SIZES || size in ADDITIONAL_SIZES
  {
    if 16 <= size <= 4096 {
      ClearLowestBit(size);
      if IsPowerOfTwo(size) {
        SmallPowers(size);
      }
      ListedArePowers();
    }
  }
}
