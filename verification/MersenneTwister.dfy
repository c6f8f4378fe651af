/** The random source behind request ids: a 624-word table that is regenerated
    in place, one block at a time, and tempered word by word on the way out.
    The reference is a recurrence on natural numbers; the class is the code.
    The schedule (which words are read, and whether they are old or new when
    they are read) is proved for any word operations, and then used with the
    32-bit MT19937 operations. */
module MersenneTwister {

  const N: nat := 624
  const M: nat := 397

  type Index = i: nat | i < N

  /** The operations on one word: the seeding step, the twist of a far word by
      two neighbours, and the tempering of an output. */
  datatype Words<!W> = Words(seedNext: (W, Index) -> W, twist: (W, W, W) -> W, temper: W -> W)

  // ----- the recurrence ------------------------------------------------------

  /** The word sequence of a seed: 624 seeding words, then x[k+624] is x[k+397]
      twisted by x[k] and x[k+1]. */
  function X<W>(ops: Words<W>, seed: W, n: nat): W {
    if n == 0 then seed
    else if n < N then ops.seedNext(X(ops, seed, n - 1), n)
    else ops.twist(X(ops, seed, n - N + M), X(ops, seed, n - N), X(ops, seed, n - N + 1))
  }

  /** Words [from, from+624) of the sequence. */
  ghost function Block<W>(ops: Words<W>, seed: W, from: nat): (words: seq<W>)
    ensures |words| == N
  {
    seq(N, k requires 0 <= k => X(ops, seed, from + k))
  }

  /** `next` is the block after `cur`: the far word of the last 397 positions,
      and the second neighbour of the last one, lie in `next` itself. */
  ghost predicate Follows<W>(ops: Words<W>, cur: seq<W>, next: seq<W>) {
    && |cur| == |next| == N
    && (forall k :: 0 <= k < N - M ==> next[k] == ops.twist(cur[k + M], cur[k], cur[k + 1]))
    && (forall k :: N - M <= k < N - 1 ==> next[k] == ops.twist(next[k - (N - M)], cur[k], cur[k + 1]))
    && next[N - 1] == ops.twist(next[M - 1], cur[N - 1], next[0])
  }

  lemma Recurrence<W>(ops: Words<W>, seed: W, k: nat)
    ensures X(ops, seed, k + N) == ops.twist(X(ops, seed, k + M), X(ops, seed, k), X(ops, seed, k + 1))
  {
  }

  lemma BlockAt<W>(ops: Words<W>, seed: W, from: nat, k: Index)
    ensures Block(ops, seed, from)[k] == X(ops, seed, from + k)
  {
  }

  /** Where the far word of the recurrence lies, for position `k` of a block. */
  lemma FarWord<W>(ops: Words<W>, seed: W, from: nat, k: Index)
    ensures X(ops, seed, from + k + M)
         == if k < N - M then Block(ops, seed, from)[k + M] else Block(ops, seed, from + N)[k - (N - M)]
  {
    if k < N - M {
      BlockAt(ops, seed, from, k + M);
    } else {
      BlockAt(ops, seed, from + N, k - (N - M));
    }
  }

  /** And where its second neighbour lies. */
  lemma NextWord<W>(ops: Words<W>, seed: W, from: nat, k: Index)
    ensures X(ops, seed, from + k + 1)
         == if k < N - 1 then Block(ops, seed, from)[k + 1] else Block(ops, seed, from + N)[0]
  {
    if k < N - 1 {
      BlockAt(ops, seed, from, k + 1);
    } else {
      BlockAt(ops, seed, from + N, 0);
    }
  }

  /** The three words that position `k` of the next block needs. */
  lemma WordFollows<W>(ops: Words<W>, seed: W, from: nat, k: Index)
    ensures var cur, next := Block(ops, seed, from), Block(ops, seed, from + N);
            next[k] == ops.twist(
              if k < N - M then cur[k + M] else next[k - (N - M)],
              cur[k],
              if k < N - 1 then cur[k + 1] else next[0])
  {
    BlockAt(ops, seed, from, k);
    BlockAt(ops, seed, from + N, k);
    FarWord(ops, seed, from, k);
    NextWord(ops, seed, from, k);
    Recurrence(ops, seed, from + k);
  }

  lemma BlocksFollow<W>(ops: Words<W>, seed: W, from: nat)
    ensures Follows(ops, Block(ops, seed, from), Block(ops, seed, from + N))
  {
    var cur, next := Block(ops, seed, from), Block(ops, seed, from + N);
    forall k | 0 <= k < N - M ensures next[k] == ops.twist(cur[k + M], cur[k], cur[k + 1]) {
      WordFollows(ops, seed, from, k);
    }
    forall k | N - M <= k < N - 1 ensures next[k] == ops.twist(next[k - (N - M)], cur[k], cur[k + 1]) {
      WordFollows(ops, seed, from, k);
    }
    WordFollows(ops, seed, from, N - 1);
  }

  // ----- MT19937 -------------------------------------------------------------

  function Xor(a: bv32, b: bv32): bv32 { a ^ b }

  function SeedNext(prev: bv32, i: Index): bv32 {
    1812433253 * (prev ^ (prev >> 30)) + (i as bv32)
  }

  /** The top bit of one word and the other bits of its neighbour. */
  function Mixed(here: bv32, next: bv32): bv32 {
    (here & 0x8000_0000) + (next & 0x7fff_ffff)
  }

  function Half(y: bv32): bv32 { y >> 1 }
  function Row(y: bv32): bv32 { if y & 1 != 0 then 0x9908_b0df else 0 }
  function Matrix(y: bv32): bv32 { Xor(Half(y), Row(y)) }

  function Twist(far: bv32, here: bv32, next: bv32): bv32 {
    Xor(far, Matrix(Mixed(here, next)))
  }

  // The four steps of tempering.

  function Shift11(w: bv32): bv32 { w >> 11 }
  function Shift7(w: bv32): bv32 { (w << 7) & 0x9d2c_5680 }
  function Shift15(w: bv32): bv32 { (w << 15) & 0xefc6_0000 }
  function Shift18(w: bv32): bv32 { w >> 18 }

  function Fold11(w: bv32): bv32 { Xor(w, Shift11(w)) }
  function Fold7(w: bv32): bv32 { Xor(w, Shift7(w)) }
  function Fold15(w: bv32): bv32 { Xor(w, Shift15(w)) }
  function Fold18(w: bv32): bv32 { Xor(w, Shift18(w)) }

  function Temper(w: bv32): bv32 {
    Fold18(Fold15(Fold7(Fold11(w))))
  }

  const MT19937: Words<bv32> := Words(SeedNext, Twist, Temper)

  // ----- the generator -------------------------------------------------------

  class Generator<W(0)> {
    const ops: Words<W>
    const table: array<W>
    var index: nat
    var initialized: bool
    ghost var seed: W
    /** Words handed out so far. */
    ghost var produced: nat

    /** Once seeded, the table holds one block of the word sequence, and the
        next word to hand out is at `index`. */
    ghost predicate Valid()
      reads this, table
    {
      && table.Length == N
      && (initialized ==>
            && index <= N
            && index <= produced + N
            && table[..] == Block(ops, seed, produced + N - index))
    }

    constructor (ops: Words<W>, blank: W)
      ensures Valid() && !initialized && fresh(table) && this.ops == ops
    {
      this.ops := ops;
      table := new W[N](_ => blank);
      index := 625;
      initialized := false;
      seed := blank;
      produced := 0;
    }

    /** The seeding loop of `init_random_state`. */
    method SeedTable(entropy: W)
      requires table.Length == N
      modifies table
      ensures table[..] == Block(ops, entropy, 0)
    {
      ghost var block := Block(ops, entropy, 0);
      table[0] := entropy;
      var i := 1;
      while i < N
        invariant 1 <= i <= N
        invariant table[..i] == block[..i]
      {
        assert block[i] == ops.seedNext(block[i - 1], i);
        assert table[i - 1] == table[..i][i - 1];
        table[i] := ops.seedNext(table[i - 1], i);
        i := i + 1;
      }
      assert table[..] == table[..N];
    }

    /** `init_random_state`, with the clock and process id folded into `entropy`. */
    method InitRandomState(entropy: W)
      requires Valid()
      modifies this, table
      ensures Valid() && initialized
      ensures seed == entropy && produced == 0 && index == N
    {
      SeedTable(entropy);
      index := N;
      initialized := true;
      seed := entropy;
      produced := 0;
    }

    /** The block refill of `generate_random`, without a second buffer. In the
        first pass every word read is still an old one; in the second the far
        word is already new; the last word is twisted by the new first word. */
    method Regenerate(ghost next: seq<W>)
      requires table.Length == N && Follows(ops, table[..], next)
      modifies table
      ensures table[..] == next
    {
      ghost var cur := table[..];
      var i := 0;
      while i < 227
        invariant 0 <= i <= 227
        invariant forall k :: 0 <= k < i ==> table[k] == next[k]
        invariant forall k :: i <= k < N ==> table[k] == cur[k]
      {
        table[i] := ops.twist(table[i + M], table[i], table[i + 1]);
        i := i + 1;
      }
      while i < N - 1
        invariant 227 <= i <= N - 1
        invariant forall k :: 0 <= k < i ==> table[k] == next[k]
        invariant forall k :: i <= k < N ==> table[k] == cur[k]
      {
        table[i] := ops.twist(table[i - 227], table[i], table[i + 1]);
        i := i + 1;
      }
      table[N - 1] := ops.twist(table[M - 1], table[N - 1], table[0]);
    }

    /** After the last word of a block comes the first word of the next block. */
    method Refill()
      requires Valid() && initialized
      modifies this`index, table
      ensures Valid() && index < N
    {
      if index >= N {
        BlocksFollow(ops, seed, produced);
        Regenerate(Block(ops, seed, produced + N));
        index := 0;
      }
    }

    /** `generate_random`: the next word of the tempered sequence, whatever
        block boundary lies in between. */
    method GenerateRandom() returns (r: W)
      requires Valid() && initialized
      modifies this, table
      ensures Valid() && initialized && seed == old(seed)
      ensures produced == old(produced) + 1
      ensures r == ops.temper(X(ops, seed, N + old(produced)))
    {
      Refill();
      assert table[index] == table[..][index];
      r := ops.temper(table[index]);
      index := index + 1;
      produced := produced + 1;
    }

    /** `get_random_uint`: seeds on first use and only then. */
    method GetRandomUint(entropy: W) returns (r: W)
      requires Valid()
      modifies this, table
      ensures Valid() && initialized
      ensures seed == if old(initialized) then old(seed) else entropy
      ensures produced == (if old(initialized) then old(produced) else 0) + 1
      ensures r == ops.temper(X(ops, seed, N + produced - 1))
    {
      if !initialized {
        InitRandomState(entropy);
      }
      r := GenerateRandom();
    }
  }

  /** The first outputs of the recurrence from a seed. */
  ghost predicate IsStream<W>(ops: Words<W>, seed: W, out: seq<W>) {
    forall n :: 0 <= n < |out| ==> out[n] == ops.temper(X(ops, seed, N + n))
  }

  lemma StreamGrows<W>(ops: Words<W>, seed: W, out: seq<W>, w: W)
    requires IsStream(ops, seed, out) && w == ops.temper(X(ops, seed, N + |out|))
    ensures IsStream(ops, seed, out + [w])
  {
  }

  /** For every number of calls, a generator that meets its first caller
      uninitialised hands out temper(x[624]), temper(x[625]), ... of the first
      caller's seed; the entropy offered by later calls is never used. */
  method Collect<W(0)>(ops: Words<W>, blank: W, entropy: seq<W>) returns (out: seq<W>)
    ensures |out| == |entropy|
    ensures entropy != [] ==> IsStream(ops, entropy[0], out)
  {
    var g := new Generator<W>(ops, blank);
    out := [];
    while |out| < |entropy|
      invariant g.Valid() && fresh(g) && fresh(g.table) && g.ops == ops
      invariant |out| <= |entropy|
      invariant g.initialized <==> out != []
      invariant g.initialized ==> g.produced == |out| && g.seed == entropy[0]
      invariant entropy != [] ==> IsStream(ops, entropy[0], out)
    {
      var r := g.GetRandomUint(entropy[|out|]);
      StreamGrows(ops, entropy[0], out, r);
      out := out + [r];
    }
  }

  /** With calls one at a time the whole output stream is MT19937. What callers
      without a lock can do to the index is the subject of `RandomCallers`. */
  method Stream(entropy: seq<bv32>) returns (out: seq<bv32>)
    ensures |out| == |entropy|
    ensures forall n :: 0 <= n < |out| ==> out[n] == Temper(X(MT19937, entropy[0], N + n))
  {
    out := Collect(MT19937, 0, entropy);
    assert entropy != [] ==> IsStream(MT19937, entropy[0], out);
  }
}
