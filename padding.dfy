/**
 * The gap from a location to the next multiple of an alignment unit, in
 * a module of its own: the modular arithmetic is kept apart from the
 * assembler state, and done for each unit with a constant divisor.
 */
module Padding {
  /** The alignments the directives ask for: .even, .long, .phrase,
      .dphrase and .qphrase. */
  predicate Unit(n: nat) { n == 2 || n == 4 || n == 8 || n == 16 || n == 32 }

  /** The gap from a location to the next multiple of n (val in the
      source: n - (sloc mod n), or 0 when already aligned). */
  function Pad(sloc: nat, n: nat): (p: nat)
    requires Unit(n)
    ensures (sloc + p) % n == 0 && p < n
    ensures p == 0 <==> sloc % n == 0
  {
    PadFacts(sloc, n, 0);
    if sloc % n == 0 then 0 else n - sloc % n
  }

  /** The gap reaches a multiple of n, and no shorter one does. */
  lemma {:induction false} PadFacts(sloc: nat, n: nat, k: nat)
    requires Unit(n)
    ensures sloc % n != 0 ==> (sloc + (n - sloc % n)) % n == 0
    ensures k < n - sloc % n && sloc % n != 0 ==> (sloc + k) % n != 0
  {
    if n == 2 {
      Gap2(sloc, k);
    } else if n == 4 {
      Gap4(sloc, k);
    } else if n == 8 {
      Gap8(sloc, k);
    } else if n == 16 {
      Gap16(sloc, k);
    } else {
      Gap32(sloc, k);
    }
  }

  /** No shorter gap reaches a multiple of n. */
  lemma PadIsLeast(sloc: nat, n: nat, k: nat)
    requires Unit(n) && k < Pad(sloc, n)
    ensures (sloc + k) % n != 0
  {
    PadFacts(sloc, n, k);
  }

  lemma Gap2(sloc: nat, k: nat)
    ensures sloc % 2 != 0 ==> (sloc + (2 - sloc % 2)) % 2 == 0
    ensures k < 2 - sloc % 2 && sloc % 2 != 0 ==> (sloc + k) % 2 != 0
  {
  }

  lemma Gap4(sloc: nat, k: nat)
    ensures sloc % 4 != 0 ==> (sloc + (4 - sloc % 4)) % 4 == 0
    ensures k < 4 - sloc % 4 && sloc % 4 != 0 ==> (sloc + k) % 4 != 0
  {
  }

  lemma Gap8(sloc: nat, k: nat)
    ensures sloc % 8 != 0 ==> (sloc + (8 - sloc % 8)) % 8 == 0
    ensures k < 8 - sloc % 8 && sloc % 8 != 0 ==> (sloc + k) % 8 != 0
  {
  }

  lemma Gap16(sloc: nat, k: nat)
    ensures sloc % 16 != 0 ==> (sloc + (16 - sloc % 16)) % 16 == 0
    ensures k < 16 - sloc % 16 && sloc % 16 != 0 ==> (sloc + k) % 16 != 0
  {
  }

  lemma Gap32(sloc: nat, k: nat)
    ensures sloc % 32 != 0 ==> (sloc + (32 - sloc % 32)) % 32 == 0
    ensures k < 32 - sloc % 32 && sloc % 32 != 0 ==> (sloc + k) % 32 != 0
  {
  }
}
