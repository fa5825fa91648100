/** `hash_combine` / `hash_args` (general/mpp.cpp:35-51): a boost-style mixing
    of 64-bit words.  The same source text is compiled into the preprocessor
    (to key the specialisation table it writes) and emitted into every output
    file (to compute the key at run time), so the two must agree.

    `std::hash` of an integer is implementation-defined; this model takes it
    to be the identity modulo 2^64, which is what libstdc++ does for
    `int` and `size_t`. */
module Hashing {

  type Word = bv64

  const Modulus: int := 0x1_0000_0000_0000_0000

  /** `std::hash<int>` / `std::hash<size_t>`: the value converted to
      `size_t`, i.e. taken modulo 2^64 (a negative `int` wraps around). */
  function IntHash(v: int): Word {
    (v % Modulus) as Word
  }

  /** `hash_combine(s, v) = s ^ (hash(v) + 0x9e3779b9 + (s << 6) + (s >> 2))`,
      all in `size_t` arithmetic. */
  function HashCombine(s: Word, v: int): Word {
    s ^ (IntHash(v) + 0x9e3779b9 + (s << 6) + (s >> 2))
  }

  /** The variadic `hash_args(s, v1, ..., vk)` (k >= 1): combine the first
      value, then recurse on the rest with the new seed. */
  function HashArgs(s: Word, vs: seq<int>): Word
    requires |vs| >= 1
    decreases |vs|
  {
    if |vs| == 1 then HashCombine(s, vs[0]) else HashArgs(HashCombine(s, vs[0]), vs[1..])
  }

  /** Left fold of `hash_combine` over the values, last value combined last:
      the reference meaning of "hash of a tuple". */
  function FoldHash(s: Word, vs: seq<int>): Word
    decreases |vs|
  {
    if vs == [] then s else HashCombine(FoldHash(s, vs[..|vs| - 1]), vs[|vs| - 1])
  }

  lemma {:induction false} FoldHashCons(s: Word, v: int, rest: seq<int>)
    ensures FoldHash(s, [v] + rest) == FoldHash(HashCombine(s, v), rest)
    decreases |rest|
  {
    if rest == [] {
      assert ([v] + rest)[..0] == [];
    } else {
      var front := rest[..|rest| - 1];
      assert ([v] + rest)[..|rest|] == [v] + front;
      FoldHashCons(s, v, front);
    }
  }

  /** The variadic recursion of `hash_args` is the left fold. */
  lemma {:induction false} HashArgsIsFold(s: Word, vs: seq<int>)
    requires |vs| >= 1
    ensures HashArgs(s, vs) == FoldHash(s, vs)
    decreases |vs|
  {
    var first, rest := vs[0], vs[1..];
    assert vs == [first] + rest;
    if rest == [] {
      assert vs[..0] == [];
    } else {
      var seed := HashCombine(s, first);
      calc {
        HashArgs(s, vs);
        HashArgs(seed, rest);
        { HashArgsIsFold(seed, rest); }
        FoldHash(seed, rest);
        { FoldHashCons(s, first, rest); }
        FoldHash(s, [first] + rest);
      }
    }
  }

  /** The table key of one combination: `size_t hash = 0; for (int r : range)
      { hash = hash_args(hash, r); }` (general/mpp.cpp:1053-1054). */
  method TableKey(range: seq<int>) returns (hash: Word)
    ensures hash == FoldHash(0, range)
  {
    hash := 0;
    for i := 0 to |range|
      invariant hash == FoldHash(0, range[..i])
    {
      hash := HashArgs(hash, [range[i]]);
      assert range[..i + 1][..i] == range[..i];
    }
    assert range[..|range|] == range;
  }

  /** Key agreement: the key written into the table for a combination (a
      fold from 0) is the key the emitted dispatcher computes from the same
      values with `hash_args(std::hash<size_t>()(0), ...)`. */
  lemma KeyAgreement(vs: seq<int>)
    requires |vs| >= 1
    ensures FoldHash(0, vs) == HashArgs(IntHash(0), vs)
  {
    HashArgsIsFold(IntHash(0), vs);
  }

  /** The mixing is order-sensitive: swapping two values changes the key. */
  lemma OrderMatters()
    ensures HashArgs(0, [1, 2]) != HashArgs(0, [2, 1])
  {
    assert [1, 2][1..] == [2] && [2, 1][1..] == [1];
    assert IntHash(1) == 1 && IntHash(2) == 2;
    assert HashCombine(0, 1) == 0x9e3779ba && HashCombine(0, 2) == 0x9e3779bb;
    assert HashCombine(0x9e3779ba, 2) == 0x28cd94bf13;
    assert HashCombine(0x9e3779bb, 1) == 0x28cd94bf53;
  }
}
