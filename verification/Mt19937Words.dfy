/** What the three MT19937 word operations are, told without their bodies.
    Tempering and the twist's matrix are linear over exclusive or, so that their
    values at the 32 one-bit words determine them; a seeding step can be undone. */
module Mt19937Words {
  import opened LinearMaps
  import opened MersenneTwister

  lemma XorAssociates(a: bv32, b: bv32, c: bv32)
    ensures Xor(Xor(a, b), c) == Xor(a, Xor(b, c))
  {
  }

  lemma XorIsSum()
    ensures Associative(Xor) && Commutative(Xor)
  {
    forall a: bv32, b: bv32, c: bv32 ensures Xor(Xor(a, b), c) == Xor(a, Xor(b, c)) { XorAssociates(a, b, c); }
  }

  // ----- shifts --------------------------------------------------------------

  lemma Shift11At(a: bv32, b: bv32) ensures Shift11(Xor(a, b)) == Xor(Shift11(a), Shift11(b)) {}
  lemma Shift7At(a: bv32, b: bv32) ensures Shift7(Xor(a, b)) == Xor(Shift7(a), Shift7(b)) {}
  lemma Shift15At(a: bv32, b: bv32) ensures Shift15(Xor(a, b)) == Xor(Shift15(a), Shift15(b)) {}
  lemma Shift18At(a: bv32, b: bv32) ensures Shift18(Xor(a, b)) == Xor(Shift18(a), Shift18(b)) {}
  lemma HalfAt(a: bv32, b: bv32) ensures Half(Xor(a, b)) == Xor(Half(a), Half(b)) {}

  lemma OddAt(a: bv32, b: bv32)
    ensures Xor(a, b) & 1 != 0 <==> (a & 1 != 0) != (b & 1 != 0)
  {
  }

  lemma RowSums()
    ensures Xor(0, 0) == 0 && Xor(0x9908_b0df, 0x9908_b0df) == 0
    ensures Xor(0, 0x9908_b0df) == 0x9908_b0df && Xor(0x9908_b0df, 0) == 0x9908_b0df
  {
  }

  lemma RowAt(a: bv32, b: bv32)
    ensures Row(Xor(a, b)) == Xor(Row(a), Row(b))
  {
    OddAt(a, b);
    RowSums();
  }

  lemma ShiftsAreLinear()
    ensures Linear(Xor, Shift11) && Linear(Xor, Shift7) && Linear(Xor, Shift15) && Linear(Xor, Shift18)
  {
    forall a: bv32, b: bv32 ensures LinearAt(Xor, Shift11, a, b) { Shift11At(a, b); }
    forall a: bv32, b: bv32 ensures LinearAt(Xor, Shift7, a, b) { Shift7At(a, b); }
    forall a: bv32, b: bv32 ensures LinearAt(Xor, Shift15, a, b) { Shift15At(a, b); }
    forall a: bv32, b: bv32 ensures LinearAt(Xor, Shift18, a, b) { Shift18At(a, b); }
  }

  lemma PartsAreLinear()
    ensures Linear(Xor, Half) && Linear(Xor, Row)
  {
    forall a: bv32, b: bv32 ensures LinearAt(Xor, Half, a, b) { HalfAt(a, b); }
    forall a: bv32, b: bv32 ensures LinearAt(Xor, Row, a, b) { RowAt(a, b); }
  }

  // ----- tempering -----------------------------------------------------------

  lemma FoldIsLinear(shift: bv32 -> bv32, fold: bv32 -> bv32)
    requires Linear(Xor, shift) && forall w: bv32 :: fold(w) == Xor(Identity(w), shift(w))
    ensures Linear(Xor, fold)
  {
    XorIsSum();
    IdentityIsLinear(Xor);
    SumIsLinear(Xor, Identity, shift, fold);
  }

  lemma FoldsAreLinear()
    ensures Linear(Xor, Fold11) && Linear(Xor, Fold7) && Linear(Xor, Fold15) && Linear(Xor, Fold18)
  {
    ShiftsAreLinear();
    FoldIsLinear(Shift11, Fold11);
    FoldIsLinear(Shift7, Fold7);
    FoldIsLinear(Shift15, Fold15);
    FoldIsLinear(Shift18, Fold18);
  }

  /** Tempering is linear over exclusive or. */
  lemma TemperIsLinear()
    ensures Linear(Xor, Temper)
  {
    FoldsAreLinear();
    var first := (w: bv32) => Fold7(Fold11(w));
    var second := (w: bv32) => Fold18(Fold15(w));
    CompositionIsLinear(Xor, Fold11, Fold7, first);
    CompositionIsLinear(Xor, Fold15, Fold18, second);
    CompositionIsLinear(Xor, first, second, Temper);
  }

  // Its values at the one-bit words.

  lemma TemperByte0()
    ensures Temper(0x0000_0001) == 0x0040_0091 && Temper(0x0000_0002) == 0x0000_0002
    ensures Temper(0x0000_0004) == 0x0102_0244 && Temper(0x0000_0008) == 0x0204_0489
    ensures Temper(0x0000_0010) == 0x0000_0010 && Temper(0x0000_0020) == 0x0800_1220
    ensures Temper(0x0000_0040) == 0x0000_0040 && Temper(0x0000_0080) == 0x2040_4890
  {
  }

  lemma TemperByte1()
    ensures Temper(0x0000_0100) == 0x0080_0120 && Temper(0x0000_0200) == 0x0100_0240
    ensures Temper(0x0000_0400) == 0x0200_0480 && Temper(0x0000_0800) == 0x0444_0990
    ensures Temper(0x0000_1000) == 0x0808_1200 && Temper(0x0000_2000) == 0x0102_2244
    ensures Temper(0x0000_4000) == 0x2224_4c81 && Temper(0x0000_8000) == 0x4000_9010
  {
  }

  lemma TemperByte2()
    ensures Temper(0x0001_0000) == 0x8801_3220 && Temper(0x0002_0000) == 0x0102_0000
    ensures Temper(0x0004_0000) == 0x2044_4891 && Temper(0x0008_0000) == 0x0488_0022
    ensures Temper(0x0010_0000) == 0x0910_0044 && Temper(0x0020_0000) == 0x1220_0088
    ensures Temper(0x0040_0000) == 0x0444_0911 && Temper(0x0080_0000) == 0x0888_1222
  {
  }

  lemma TemperByte3()
    ensures Temper(0x0100_0000) == 0x8100_0040 && Temper(0x0200_0000) == 0x2220_4888
    ensures Temper(0x0400_0000) == 0x4400_9100 && Temper(0x0800_0000) == 0x8801_2200
    ensures Temper(0x1000_0000) == 0x1102_0440 && Temper(0x2000_0000) == 0x2004_0801
    ensures Temper(0x4000_0000) == 0x4408_1102 && Temper(0x8000_0000) == 0x8810_2204
  {
  }

  // ----- the twist -----------------------------------------------------------

  lemma MatrixIsLinear()
    ensures Linear(Xor, Matrix)
  {
    XorIsSum();
    PartsAreLinear();
    SumIsLinear(Xor, Half, Row, Matrix);
  }

  lemma MatrixLowBits()
    ensures Matrix(0x0000_0001) == 0x9908_b0df && Matrix(0x0000_0002) == 0x0000_0001
    ensures Matrix(0x0000_0004) == 0x0000_0002 && Matrix(0x0000_0008) == 0x0000_0004
    ensures Matrix(0x0000_0010) == 0x0000_0008 && Matrix(0x0000_0020) == 0x0000_0010
    ensures Matrix(0x0000_0040) == 0x0000_0020 && Matrix(0x0000_0080) == 0x0000_0040
    ensures Matrix(0x0000_0100) == 0x0000_0080 && Matrix(0x0000_0200) == 0x0000_0100
    ensures Matrix(0x0000_0400) == 0x0000_0200 && Matrix(0x0000_0800) == 0x0000_0400
    ensures Matrix(0x0000_1000) == 0x0000_0800 && Matrix(0x0000_2000) == 0x0000_1000
    ensures Matrix(0x0000_4000) == 0x0000_2000 && Matrix(0x0000_8000) == 0x0000_4000
  {
  }

  lemma MatrixHighBits()
    ensures Matrix(0x0001_0000) == 0x0000_8000 && Matrix(0x0002_0000) == 0x0001_0000
    ensures Matrix(0x0004_0000) == 0x0002_0000 && Matrix(0x0008_0000) == 0x0004_0000
    ensures Matrix(0x0010_0000) == 0x0008_0000 && Matrix(0x0020_0000) == 0x0010_0000
    ensures Matrix(0x0040_0000) == 0x0020_0000 && Matrix(0x0080_0000) == 0x0040_0000
    ensures Matrix(0x0100_0000) == 0x0080_0000 && Matrix(0x0200_0000) == 0x0100_0000
    ensures Matrix(0x0400_0000) == 0x0200_0000 && Matrix(0x0800_0000) == 0x0400_0000
    ensures Matrix(0x1000_0000) == 0x0800_0000 && Matrix(0x2000_0000) == 0x1000_0000
    ensures Matrix(0x4000_0000) == 0x2000_0000 && Matrix(0x8000_0000) == 0x4000_0000
  {
  }

  lemma MixedBits(here: bv32, next: bv32)
    ensures Mixed(here, next) & 0x8000_0000 == here & 0x8000_0000
    ensures Mixed(here, next) & 0x7fff_ffff == next & 0x7fff_ffff
  {
  }

  /** A twist adds to the far word the matrix times a word with the top bit of one
      neighbour and the other bits of the next. */
  ghost predicate Twisted(word: bv32, far: bv32, here: bv32, next: bv32) {
    exists y: bv32 :: Twists(y, word, far, here, next)
  }

  ghost predicate Twists(y: bv32, word: bv32, far: bv32, here: bv32, next: bv32) {
    && word == Xor(far, Matrix(y))
    && y & 0x8000_0000 == here & 0x8000_0000 && y & 0x7fff_ffff == next & 0x7fff_ffff
  }

  lemma TwistIsTwisted(far: bv32, here: bv32, next: bv32)
    ensures Twisted(Twist(far, here, next), far, here, next)
  {
    MixedBits(here, next);
    assert Twists(Mixed(here, next), Twist(far, here, next), far, here, next);
  }

  /** The recurrence of MT19937: each new word is the one 227 places back twisted by
      the words 624 and 623 places back. */
  lemma Mt19937Recurrence(seed: bv32, k: nat)
    ensures Twisted(X(MT19937, seed, k + 624), X(MT19937, seed, k + 397), X(MT19937, seed, k), X(MT19937, seed, k + 1))
  {
    Recurrence(MT19937, seed, k);
    TwistIsTwisted(X(MT19937, seed, k + 397), X(MT19937, seed, k), X(MT19937, seed, k + 1));
  }

  // ----- seeding -------------------------------------------------------------

  /** The first words of the reference seed 5489. */
  lemma FirstWords()
    ensures X(MT19937, 5489, 0) == 5489 && X(MT19937, 5489, 1) == 1301868182
    ensures X(MT19937, 5489, 2) == 2938499221 && X(MT19937, 5489, 3) == 2950281878
  {
    assert SeedNext(5489, 1) == 1301868182;
    assert SeedNext(1301868182, 2) == 2938499221;
    assert SeedNext(2938499221, 3) == 2950281878;
  }
}
