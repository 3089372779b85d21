// A deterministic hash used as a random source: a 64-bit finaliser in the
// style of MurmurHash3's fmix64, applied to a seed and a list of arguments.
// `size_t` is 64 bits wide and all its arithmetic wraps modulo 2^64, which
// `bv64` does natively.

module RandomHashes {

  /** The two multipliers of the finaliser. */
  const M1: bv64 := 0xff51_afd7_ed55_8ccd
  const M2: bv64 := 0xc4ce_b9fe_1a85_ec53

  /** The multipliers that mix a seed, or the hash so far, with an argument. */
  const SeedFactor: bv64 := 101
  const ChainFactor: bv64 := 37

  /** One xor-shift step: the high 31 bits folded into the low ones. */
  function XorShift(v: bv64): bv64
  {
    v ^ (v >> 33)
  }

  /** `hash(value)`: add one, then three xor-shift steps with a wrapping
    * multiplication between each. */
  function Hash(value: bv64): bv64
  {
    XorShift(XorShift(XorShift(value + 1) * M1) * M2)
  }

  /** Reference values of the finaliser. The largest word wraps to zero
    * when one is added, and zero is a fixed point of the mixing steps, so
    * it hashes to zero. */
  lemma HashValues()
    ensures Hash(0) == 0xb456_bcfc_34c2_cb2c
    ensures Hash(1) == 0x3abf_2a20_6506_83e7
    ensures Hash(0xffff_ffff_ffff_ffff) == 0
  {
  }

  /** `hash(seed, args...)`, each argument already cast to `size_t`. With no
    * argument it is `hash(seed)`; with one, `hash(hash(seed) * 101 + a)`;
    * with more, the rest is hashed first and the first argument is mixed in
    * last, as `hash(hash(seed, rest...) * 37 + a)`. */
  function HashOf(seed: bv64, args: seq<bv64>): bv64
    decreases |args|
  {
    if |args| == 0 then Hash(seed)
    else if |args| == 1 then MixSeed(seed, args[0])
    else Mix(HashOf(seed, args[1..]), args[0])
  }

  /** An argument mixed with the hashed seed: `hash(hash(seed) * 101 + a)`. */
  function MixSeed(seed: bv64, a: bv64): bv64
  {
    Hash(Hash(seed) * SeedFactor + a)
  }

  /** An argument mixed with the hash so far: `hash(value * 37 + a)`. */
  function Mix(value: bv64, a: bv64): bv64
  {
    Hash(value * ChainFactor + a)
  }

  /** The same hash, computed from the other end: the hash so far is
    * folded with each remaining argument, from the last to the first. */
  function Chained(acc: bv64, args: seq<bv64>): bv64
    decreases |args|
  {
    if |args| == 0 then acc
    else Chained(Mix(acc, args[|args| - 1]), args[..|args| - 1])
  }

  lemma {:induction false} ChainedFront(acc: bv64, a: bv64, rest: seq<bv64>)
    ensures Chained(acc, [a] + rest) == Mix(Chained(acc, rest), a)
    decreases |rest|
  {
    FrontSlice(a, rest);
    if |rest| > 0 {
      var n := |rest|;
      ChainedFront(Mix(acc, rest[n - 1]), a, rest[..n - 1]);
    }
  }

  lemma FrontSlice<T>(a: T, rest: seq<T>)
    ensures var s := [a] + rest; |s| - 1 == |rest| && s[|s| - 1] == if |rest| == 0 then a else rest[|rest| - 1]
    ensures var s := [a] + rest; s[..|s| - 1] == if |rest| == 0 then [] else [a] + rest[..|rest| - 1]
  {
  }

  lemma InnerSlices<T>(s: seq<T>)
    requires |s| > 1
    ensures s[1..][|s[1..]| - 1] == s[|s| - 1] && s[1..][..|s[1..]| - 1] == s[1..|s| - 1]
    ensures s[..|s| - 1] == [s[0]] + s[1..|s| - 1]
  {
  }

  /** The last argument is mixed in first, with the hashed seed; every
    * earlier argument is then folded in, from the back. */
  lemma {:induction false} LastArgumentFirst(seed: bv64, args: seq<bv64>)
    requires |args| > 0
    ensures HashOf(seed, args) ==
            Chained(MixSeed(seed, args[|args| - 1]), args[..|args| - 1])
    decreases |args|
  {
    var n := |args|;
    var start := MixSeed(seed, args[n - 1]);
    if n == 1 {
      assert args[..0] == [];
    } else {
      var tail, middle := args[1..], args[1..n - 1];
      LastArgumentFirst(seed, tail);
      InnerSlices(args);
      assert HashOf(seed, tail) == Chained(start, middle);
      ChainedFront(start, args[0], middle);
      assert HashOf(seed, args) == Mix(HashOf(seed, tail), args[0]);
    }
  }

  /** The bounds `RandomHashValue` reports: every 64-bit word. */
  const MinValue: bv64 := 0
  const MaxValue: bv64 := 0xffff_ffff_ffff_ffff

  /** `RandomHash`: a seed, and the value last drawn, which drawing
    * overwrites even though the source calls it from a `const` method. */
  class RandomHash {
    var seed: bv64
    var value: bv64

    constructor (seed: bv64)
      ensures this.seed == seed
    {
      this.seed := seed;
    }

    /** `operator()`: stores `hash(seed, args...)` as the drawn value and
      * returns it; the seed is kept. */
    method Draw(args: seq<bv64>) returns (r: bv64)
      modifies this
      ensures r == value == HashOf(seed, args) && seed == old(seed)
    {
      value := HashOf(seed, args);
      r := value;
    }

    /** `seed(v)`. */
    method SetSeed(v: bv64)
      modifies this
      ensures seed == v && value == old(value)
    {
      seed := v;
    }

    /** `seed()`. */
    function Seed(): (s: bv64)
      reads this
      ensures s == seed
    {
      seed
    }
  }

  /** Drawing twice with the same arguments gives the same value, and
    * setting a seed and reading it back gives that seed. */
  method Reproducible(g: RandomHash, args: seq<bv64>, other: bv64)
    returns (first: bv64, again: bv64, reseeded: bool)
    modifies g
    ensures first == again && reseeded
  {
    first := g.Draw(args);
    again := g.Draw(args);
    g.SetSeed(other);
    reseeded := g.Seed() == other;
  }
}
