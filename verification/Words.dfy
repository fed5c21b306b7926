/** Machine words of 32 bits. A word is the set of its bits that are on: union, intersection and
    difference are the operators |, & and & ~. */
module Words {

  const BITS: nat := 32

  type Word = set<int>

  ghost predicate IsWord(w: Word) { forall k :: k in w ==> 0 <= k < BITS }

  /** w << 1; the highest bit is lost. */
  function Shl(w: Word): Word {
    set k | k in w && k + 1 < BITS :: k + 1
  }

  /** Exactly one bit. */
  ghost predicate Single(w: Word) { exists k :: 0 <= k < BITS && w == {k} }
}
