/** The 64-bit FNV-1a hash (src/lb/ConsistentHash.cpp), on machine words that wrap around. */
module Fnv {

  const OFFSET: bv64 := 14695981039346656037
  /** Times the FNV prime, modulo 2^64. */
  function Times(x: bv64): bv64 { x * 1099511628211 }

  /** Times the inverse of the FNV prime modulo 2^64. */
  function Over(x: bv64): bv64 { x * 14886173955864302971 }

  lemma OverTimes(x: bv64)
    ensures Over(x * 1099511628211) == x
  {
  }

  lemma TimesOver(x: bv64)
    ensures Times(x * 14886173955864302971) == x
  {
  }

  function Mix(value: bv64, byte: bv8): bv64 { value ^ (byte as bv64) }

  /** One round: exclusive-or with the byte, then times the prime. */
  function Step(value: bv64, byte: bv8): bv64 { Times(Mix(value, byte)) }

  /** A round undone. */
  function Unstep(value: bv64, byte: bv8): bv64 { Mix(Over(value), byte) }

  lemma Inverses(x: bv64)
    ensures Over(Times(x)) == x && Times(Over(x)) == x
  {
    OverTimes(x);
    TimesOver(x);
  }

  lemma MixMixed(value: bv64, byte: bv8)
    ensures Mix(value ^ (byte as bv64), byte) == value
  {
  }

  lemma MixTwice(value: bv64, byte: bv8)
    ensures Mix(Mix(value, byte), byte) == value
  {
    MixMixed(value, byte);
  }

  /** For a fixed byte a step of the hash is a bijection on 64-bit words. */
  lemma StepIsBijection(value: bv64, byte: bv8)
    ensures Unstep(Step(value, byte), byte) == value && Step(Unstep(value, byte), byte) == value
  {
    hide Times, Over, Mix;
    Inverses(Mix(value, byte));
    Inverses(value);
    MixTwice(value, byte);
    MixTwice(Over(value), byte);
  }

  /** From one word, different bytes lead to different words. */
  lemma StepTellsBytes(value: bv64, b: bv8, c: bv8)
    requires b != c
    ensures Step(value, b) != Step(value, c)
  {
    hide Times, Over, Mix;
    MixTells(value, b, c);
    Inverses(Mix(value, b));
    Inverses(Mix(value, c));
  }

  lemma MixTells(value: bv64, b: bv8, c: bv8)
    requires b != c
    ensures Mix(value, b) != Mix(value, c)
  {
  }

  /** The word reached from `value` by the bytes of a key. */
  function Fold(value: bv64, key: seq<bv8>): bv64
    decreases |key|
  {
    if key == [] then value else Fold(Step(value, key[0]), key[1..])
  }

  method Hash(key: seq<bv8>) returns (value: bv64)
    ensures value == Fold(OFFSET, key)
  {
    hide Step;
    value := OFFSET;
    var i := 0;
    while i < |key|
      invariant 0 <= i <= |key|
      invariant Fold(OFFSET, key) == Fold(value, key[i..])
    {
      assert key[i..][1..] == key[i + 1..];
      value := Step(value, key[i]);
      i := i + 1;
    }
  }

  /** Equal tails never make two different words equal, or two equal words different. */
  lemma {:induction false} FoldIsInjective(v: bv64, w: bv64, key: seq<bv8>)
    ensures Fold(v, key) == Fold(w, key) <==> v == w
    decreases |key|
  {
    hide Step, Unstep;
    if key != [] {
      FoldIsInjective(Step(v, key[0]), Step(w, key[0]), key[1..]);
      StepIsBijection(v, key[0]);
      StepIsBijection(w, key[0]);
    }
  }

  /** Two keys of one length that differ in exactly one byte never have the same hash. */
  lemma {:induction false} OneByteTells(value: bv64, a: seq<bv8>, b: seq<bv8>, i: nat)
    requires i < |a| == |b| && a[i] != b[i] && a[..i] == b[..i] && a[i + 1..] == b[i + 1..]
    ensures Fold(value, a) != Fold(value, b)
    decreases i
  {
    hide Step;
    if i == 0 {
      StepTellsBytes(value, a[0], b[0]);
      FoldIsInjective(Step(value, a[0]), Step(value, b[0]), a[1..]);
    } else {
      assert a[..i][0] == b[..i][0];
      assert a[1..][..i - 1] == a[..i][1..] && b[1..][..i - 1] == b[..i][1..];
      assert a[1..][i..] == a[i + 1..] && b[1..][i..] == b[i + 1..];
      OneByteTells(Step(value, a[0]), a[1..], b[1..], i - 1);
    }
  }
}
