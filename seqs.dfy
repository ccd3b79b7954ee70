/** Small facts about sequences shared by the proofs. */
module Seqs {
  /** Concatenation regrouped; stated once so that proofs need not rediscover it. */
  lemma Regroup<T>(a: seq<T>, b: seq<T>, c: seq<T>)
    ensures (a + b) + c == a + (b + c)
  {
  }
}
