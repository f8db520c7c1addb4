/** The mask arithmetic that rounds a request up to whole pages, against plain division. */
module PageRounding {
  import opened Prelude

  const PAGE: nat := 4096

  function Pow2(n: nat): (p: nat)
    ensures 1 <= p
  {
    if n == 0 then 1 else 2 * Pow2(n - 1)
  }

  /** Bitwise `&` of two `width`-bit words. */
  function BitAnd(a: nat, b: nat, width: nat): nat {
    if width == 0 then 0 else (if a % 2 == 1 && b % 2 == 1 then 1 else 0) + 2 * BitAnd(a / 2, b / 2, width - 1)
  }

  /** Bitwise `!` of a `width`-bit word. */
  function BitNot(a: nat, width: nat): nat
    requires a < Pow2(width)
  {
    Pow2(width) - 1 - a
  }

  lemma {:induction false} AndAllOnes(a: nat, width: nat)
    requires a < Pow2(width)
    ensures BitAnd(a, Pow2(width) - 1, width) == a
  {
    if width > 0 {
      AndAllOnes(a / 2, width - 1);
      assert (Pow2(width) - 1) / 2 == Pow2(width - 1) - 1 && (Pow2(width) - 1) % 2 == 1;
    }
  }

  lemma MultipleGap(m: nat, k: int)
    requires 1 <= m
    ensures 1 <= k ==> m <= m * k
    ensures k <= -1 ==> m * k + m <= 0
  {
  }

  lemma DivModUnique(x: nat, m: nat, d: nat, r: nat)
    requires x == m * d + r && r < m
    ensures x / m == d && x % m == r
  {
    var e := x / m;
    assert m * (e - d) == m * e - m * d == r - x % m;
    MultipleGap(m, e - d);
  }

  lemma ModDouble(x: nat, m: nat)
    requires m >= 1
    ensures x % (2 * m) == 2 * (x / 2 % m) + x % 2
  {
    var q := x / 2;
    var d, r := q / m, q % m;
    assert q == m * d + r;
    assert x == 2 * q + x % 2 == (2 * m) * d + (2 * r + x % 2) by {
      assert 2 * (m * d) == (2 * m) * d;
    }
    DivModUnique(x, 2 * m, d, 2 * r + x % 2);
  }

  lemma Pow2Step(n: nat)
    ensures Pow2(n) == if n == 0 then 1 else 2 * Pow2(n - 1)
  {
  }

  lemma AndOfEven(a: nat, half: nat, width: nat)
    requires width > 0
    ensures BitAnd(a, 2 * half, width) == 2 * BitAnd(a / 2, half, width - 1)
  {
  }

  /** Clearing the low `low` bits rounds down to a multiple of `2^low`. */
  lemma {:induction false} ClearLowBits(a: nat, low: nat, width: nat)
    requires low <= width && a < Pow2(width)
    ensures Pow2(low) <= Pow2(width)
    ensures BitAnd(a, Pow2(width) - Pow2(low), width) == a - a % Pow2(low)
    decreases width
  {
    hide Pow2, BitAnd;
    Pow2Step(low);
    Pow2Step(width);
    if low == 0 {
      AndAllOnes(a, width);
    } else {
      ClearLowBits(a / 2, low - 1, width - 1);
      ModDouble(a, Pow2(low - 1));
      AndOfEven(a, Pow2(width - 1) - Pow2(low - 1), width);
    }
  }

  lemma {:induction false} Pow2Add(a: nat, b: nat)
    ensures Pow2(a + b) == Pow2(a) * Pow2(b)
  {
    if a > 0 {
      Pow2Add(a - 1, b);
      assert Pow2(a) * Pow2(b) == 2 * (Pow2(a - 1) * Pow2(b));
    }
  }

  lemma ByteSize()
    ensures Pow2(8) == 256
  {
    assert Pow2(4) == 16;
    Pow2Add(4, 4);
  }

  lemma PageSize()
    ensures Pow2(12) == 4096
  {
    ByteSize();
    assert Pow2(4) == 16;
    Pow2Add(8, 4);
  }

  lemma WordSize()
    ensures Pow2(64) == USIZE_MAX + 1
  {
    ByteSize();
    EightBytes(8);
  }

  lemma EightBytes(n: nat)
    requires Pow2(n) == 256
    ensures Pow2(8 * n) == USIZE_MAX + 1
  {
    Pow2Add(n, n);
    Pow2Add(2 * n, 2 * n);
    Pow2Add(4 * n, 4 * n);
  }

  lemma WordSizes()
    ensures Pow2(12) == 4096 && Pow2(64) == USIZE_MAX + 1
  {
    PageSize();
    WordSize();
  }

  /** `(size + 4095) & !4095` as a word computes it, the sum wrapping past `usize::MAX`. */
  function MaskRound(size: nat): nat
    requires size <= USIZE_MAX
  {
    WordSizes();
    BitAnd((size + 4095) % Pow2(64), BitNot(4095, 64), 64)
  }

  predicate IsPageMultiple(n: nat) {
    n % PAGE == 0
  }

  lemma ClearPageBits(sum: nat)
    requires sum <= USIZE_MAX
    ensures 4095 < Pow2(64) && BitAnd(sum, BitNot(4095, 64), 64) == sum - sum % 4096
  {
    hide BitAnd;
    WordSizes();
    ClearLowBits(sum, 12, 64);
  }

  lemma WrappedSum(size: nat)
    requires size <= USIZE_MAX
    ensures (size + 4095) % Pow2(64) ==
            if size <= USIZE_MAX - 4095 then size + 4095 else size + 4095 - (USIZE_MAX + 1)
  {
    WordSizes();
    DivModUnique(size + 4095, Pow2(64), if size <= USIZE_MAX - 4095 then 0 else 1,
                 if size <= USIZE_MAX - 4095 then size + 4095 else size + 4095 - (USIZE_MAX + 1));
  }

  lemma MaskRoundValue(size: nat)
    requires size <= USIZE_MAX
    ensures MaskRound(size) == if size <= USIZE_MAX - 4095 then (size + 4095) / 4096 * 4096 else 0
  {
    hide Pow2, BitAnd, BitNot;
    WrappedSum(size);
    ClearPageBits((size + 4095) % Pow2(64));
  }

  /** For every size the sum does not overflow on, the mask form is the least page multiple that holds
      it; for the 4095 sizes beyond, it is zero. */
  lemma MaskRoundIsLeastPageMultiple(size: nat)
    requires size <= USIZE_MAX
    ensures IsPageMultiple(MaskRound(size))
    ensures size <= USIZE_MAX - 4095 ==>
              size <= MaskRound(size) && forall m: nat :: IsPageMultiple(m) && size <= m ==> MaskRound(size) <= m
    ensures size > USIZE_MAX - 4095 ==> MaskRound(size) == 0
  {
    hide MaskRound;
    MaskRoundValue(size);
  }

  /** A rounded request holds what was asked for exactly when the sum did not overflow. */
  lemma MaskRoundCoversIff(size: nat)
    requires size <= USIZE_MAX
    ensures size <= MaskRound(size) <==> size <= USIZE_MAX - 4095
  {
    MaskRoundIsLeastPageMultiple(size);
  }
}
