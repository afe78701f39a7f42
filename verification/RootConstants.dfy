/** The hash constants are the root fractions that sections 4.2.2 and 5.3.3 of FIPS 180-4 define. */
module RootConstants {
  import opened Bytes
  import opened Fips180

  const PRIMES: seq<nat> := [
    2, 3, 5, 7, 11, 13, 17, 19, 23, 29, 31, 37, 41, 43, 47, 53
  ] + [
    59, 61, 67, 71, 73, 79, 83, 89, 97, 101, 103, 107, 109, 113, 127, 131
  ] + [
    137, 139, 149, 151, 157, 163, 167, 173, 179, 181, 191, 193, 197, 199, 211, 223
  ] + [
    227, 229, 233, 239, 241, 251, 257, 263, 269, 271, 277, 281, 283, 293, 307, 311
  ]

  function Square(x: nat): nat { x * x }
  function Cube(x: nat): nat { x * x * x }

  /** The bits after the point of the cube root of p, cut off after thirty-two. */
  ghost predicate CubeRootBits(bits: u32, p: nat) {
    exists whole: nat :: CubeRootWithin(whole, bits, p)
  }

  predicate CubeRootWithin(whole: nat, bits: u32, p: nat) {
    var x := whole * 0x1_0000_0000 + bits as nat;
    Cube(x) <= p * 0x1_0000_0000_0000_0000_0000_0000 < Cube(x + 1)
  }

  ghost predicate SquareRootBits(bits: u32, p: nat) {
    exists whole: nat :: SquareRootWithin(whole, bits, p)
  }

  predicate SquareRootWithin(whole: nat, bits: u32, p: nat) {
    var x := whole * 0x1_0000_0000 + bits as nat;
    Square(x) <= p * 0x1_0000_0000_0000_0000 < Square(x + 1)
  }

  lemma CubeRoots1(i: nat)
    requires 0 <= i < 4
    ensures CubeRootWithin(1, FRACTIONS[i], PRIMES[i])
  {}

  lemma CubeRoots2(i: nat)
    requires 4 <= i < 9
    ensures CubeRootWithin(2, FRACTIONS[i], PRIMES[i])
  {}

  lemma CubeRoots3(i: nat)
    requires 9 <= i < 18
    ensures CubeRootWithin(3, FRACTIONS[i], PRIMES[i])
  {}

  lemma CubeRoots4(i: nat)
    requires 18 <= i < 30
    ensures CubeRootWithin(4, FRACTIONS[i], PRIMES[i])
  {}

  lemma CubeRoots5a(i: nat)
    requires 30 <= i < 34
    ensures CubeRootWithin(5, FRACTIONS[i], PRIMES[i])
  {}

  lemma CubeRoots5b(i: nat)
    requires 34 <= i < 38
    ensures CubeRootWithin(5, FRACTIONS[i], PRIMES[i])
  {}

  lemma CubeRoots5c(i: nat)
    requires 38 <= i < 47
    ensures CubeRootWithin(5, FRACTIONS[i], PRIMES[i])
  {}

  lemma CubeRoots6(i: nat)
    requires 47 <= i < 64
    ensures CubeRootWithin(6, FRACTIONS[i], PRIMES[i])
  {}

  lemma RoundConstants(i: nat)
    requires i < 64
    ensures CubeRootBits(FRACTIONS[i], PRIMES[i])
  {
    hide CubeRootWithin;
    if i < 4 { CubeRoots1(i); } else if i < 9 { CubeRoots2(i); } else if i < 18 { CubeRoots3(i); }
    else if i < 30 { CubeRoots4(i); } else if i < 34 { CubeRoots5a(i); } else if i < 38 { CubeRoots5b(i); }
    else if i < 47 { CubeRoots5c(i); } else { CubeRoots6(i); }
  }

  lemma InitialWords(i: nat)
    requires i < 8
    ensures SquareRootBits(INITIAL_WORDS[i], PRIMES[i])
  {
    hide SquareRootWithin;
    if i < 2 { SquareRoots1(i); } else if i < 4 { SquareRoots2(i); }
    else if i < 6 { SquareRoots3(i); } else { SquareRoots4(i); }
  }

  lemma SquareRoots1(i: nat)
    requires 0 <= i < 2
    ensures SquareRootWithin(1, INITIAL_WORDS[i], PRIMES[i])
  {}

  lemma SquareRoots2(i: nat)
    requires 2 <= i < 4
    ensures SquareRootWithin(2, INITIAL_WORDS[i], PRIMES[i])
  {}

  lemma SquareRoots3(i: nat)
    requires 4 <= i < 6
    ensures SquareRootWithin(3, INITIAL_WORDS[i], PRIMES[i])
  {}

  lemma SquareRoots4(i: nat)
    requires 6 <= i < 8
    ensures SquareRootWithin(4, INITIAL_WORDS[i], PRIMES[i])
  {}
}
