/** Small facts about sequences that proofs elsewhere name instead of rediscovering. */
module Sequences {

  lemma {:induction false} ConcatAssociative<T>(a: seq<T>, b: seq<T>, c: seq<T>)
    ensures (a + b) + c == a + (b + c)
  {
  }

  lemma {:induction false} TakeOfDrop<T>(s: seq<T>, j: nat, n: nat)
    requires j + n <= |s|
    ensures s[j..][..n] == s[j..j + n]
  {
  }

  lemma {:induction false} DropOfDrop<T>(s: seq<T>, j: nat, n: nat)
    requires j + n <= |s|
    ensures s[j..][n..] == s[j + n..]
  {
  }
}
